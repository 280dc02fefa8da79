/**
 The long-term credential check of src/server/ns_turn_server.c (check_stun_auth, section
 10.2.2 of RFC 5389) on real message bytes.  The key lookup is asynchronous: it may ask
 the caller to wait, and the message is then processed again.
 */
module Authentication {
  import opened Basics
  import opened AllocState
  import opened Crc32
  import opened StunBytes
  import opened StunBuild
  import opened StunBuffer
  import opened Sessions

  const USERNAME := 0x0006
  const REALM := 0x0014
  const NONCE := 0x0015

  const ALLOCATE := 3
  const REFRESH := 4
  const CREATE_PERMISSION := 8
  const CHANNEL_BIND := 9
  const CONNECT := 10
  const CONNECTION_BIND := 11

  /**
   What the server is set up with: `secure` is is_secure_string, `hmac` the keyed HMAC-SHA1,
   `realmNamed` the realm whose options get_realm_options_by_name finds.
   */
  datatype Config = Config(id: Byte, longTerm: bool, staleNonce: Time, secure: (Bytes, bool) -> bool,
                           hmac: (Bytes, Bytes) -> Bytes, realmNamed: Bytes -> Bytes)

  /** The clock, the nonce drawn if one is needed, and what the key lookup does if it is started. */
  datatype Env = Env(now: Time, nonce: Bytes, postpone: bool, oauth: bool)

  datatype Verdict = Verdict(err: nat, integrity: bool, postponed: bool)

  /** A C string: the bytes before the first zero. */
  function CString(b: Bytes): (r: Bytes)
    ensures r <= b && 0 !in r && (|r| < |b| ==> b[|r|] == 0)
  {
    if b == [] || b[0] == 0 then [] else [b[0]] + CString(b[1..])
  }

  /** The first attribute of the type, cut to max bytes and read as a C string. */
  function Text(msg: Bytes, typ: Word16, max: nat): Option<Bytes> {
    var o := FindFirst(msg, typ);
    if o.None? then None
    else
      var v := AttrAt(msg, o.value).value;
      Some(CString(if |v| <= max then v else v[..max]))
  }

  function MacOf(cfg: Config, key: Bytes): Bytes -> Bytes {
    (d: Bytes) => cfg.hmac(key, d)
  }

  /** The message verifies under this key, and carries this nonce. */
  predicate Verified(cfg: Config, msg: Bytes, nonce: Bytes, key: Bytes) {
    Text(msg, NONCE, 127) == Some(nonce) && CheckIntegrity(msg, MacOf(cfg, key), Sha1) == 1
  }

  /** The session's nonce once the check has renewed it if it must. */
  function NonceNow(cfg: Config, ss: Auth, env: Env): Bytes {
    if ss.nonce == [] || (cfg.staleNonce != 0 && Before(ss.nonceExpires, env.now)) then env.nonce else ss.nonce
  }

  predicate RealmFits(cfg: Config, ss: Auth, msg: Bytes, what: nat) {
    var r := Text(msg, REALM, 127);
    r.Some? && cfg.secure(r.value, false) && (what == CONNECTION_BIND || r.value == ss.realm || ss.oauth)
  }

  predicate SameUser(ss: Auth, msg: Bytes) {
    ss.username == [] || Text(msg, USERNAME, 512) == Some(ss.username)
  }

  predicate UserFits(cfg: Config, ss: Auth, msg: Bytes) {
    var u := Text(msg, USERNAME, 512);
    u.Some? && cfg.secure(u.value, true) && (SameUser(ss, msg) || ss.oauth)
  }

  /** All that a message needs to pass. */
  predicate Credible(cfg: Config, ss: Auth, msg: Bytes, what: nat, env: Env) {
    && ss.nonce != []
    && RealmFits(cfg, ss, msg, what)
    && UserFits(cfg, ss, msg)
    && (ss.pwd != [] || (ss.keySet && SameUser(ss, msg)))
    && Verified(cfg, msg, NonceNow(cfg, ss, env), ss.key)
  }

  // ---- what the check does to a session ----

  /** A MESSAGE-INTEGRITY of the length of an HMAC-SHA1. */
  predicate HasIntegrity(msg: Bytes) {
    var o := FindFirst(msg, MESSAGE_INTEGRITY);
    o.Some? && U16(msg, o.value + 2) == 20
  }

  /** ConnectionBind names the realm itself. */
  predicate NamesRealm(cfg: Config, msg: Bytes, what: nat) {
    what == CONNECTION_BIND && Text(msg, REALM, 127).Some? && cfg.secure(Text(msg, REALM, 127).value, false)
  }

  predicate NamesFit(cfg: Config, ss: Auth, msg: Bytes, what: nat) {
    RealmFits(cfg, ss, msg, what) && UserFits(cfg, ss, msg)
  }

  /** The names after the REALM and USERNAME part of the check; another user's name takes the key away. */
  function NamesChecked(cfg: Config, ss: Auth, msg: Bytes, what: nat): Auth {
    var r := if NamesRealm(cfg, msg, what) then ss.(realm := cfg.realmNamed(Text(msg, REALM, 127).value)) else ss;
    if NamesFit(cfg, ss, msg, what)
    then r.(username := Text(msg, USERNAME, 512).value, keySet := ss.keySet && SameUser(ss, msg)) else r
  }

  /** All is in order but the key, or the integrity under it: a key lookup is started where that is possible. */
  predicate LacksKey(cfg: Config, ss: Auth, msg: Bytes, what: nat, env: Env) {
    && ss.nonce != [] && NamesFit(cfg, ss, msg, what)
    && Text(msg, NONCE, 127) == Some(NonceNow(cfg, ss, env))
    && !Credible(cfg, ss, msg, what, env)
  }

  function NonceExpiry(cfg: Config, ss: Auth, env: Env): Time {
    if ss.nonce == [] || (cfg.staleNonce != 0 && Before(ss.nonceExpires, env.now))
    then Later(env.now, cfg.staleNonce) else ss.nonceExpires
  }

  /** The session's credentials after the check. */
  function Checked(cfg: Config, ss: Auth, msg: Bytes, what: nat, env: Env, canResume: bool): Auth {
    if !cfg.longTerm then ss else
      var n := ss.(nonce := NonceNow(cfg, ss, env), nonceExpires := NonceExpiry(cfg, ss, env));
      if !HasIntegrity(msg) then n else
        var r := NamesChecked(cfg, n, msg, what);
        if canResume && LacksKey(cfg, ss, msg, what, env) then r.(oauth := env.oauth) else r
  }

  /**
   The check changes the name a session goes by: the realm that ConnectionBind names, another
   user name past the realm check, or the flag that a key lookup sets.
   */
  predicate Renames(cfg: Config, ss: Auth, msg: Bytes, what: nat, env: Env, canResume: bool) {
    cfg.longTerm && HasIntegrity(msg) &&
    ( || (NamesRealm(cfg, msg, what) && cfg.realmNamed(Text(msg, REALM, 127).value) != ss.realm)
      || (NamesFit(cfg, ss, msg, what) && Text(msg, USERNAME, 512) != Some(ss.username))
      || (canResume && LacksKey(cfg, ss, msg, what, env) && env.oauth != ss.oauth))
  }

  /** It does so in exactly these cases, and never touches key, password or pinned origin. */
  lemma CheckedNames(cfg: Config, ss: Auth, msg: Bytes, what: nat, env: Env, canResume: bool)
    ensures var ss' := Checked(cfg, ss, msg, what, env, canResume);
            && (NameOf(ss') != NameOf(ss) <==> Renames(cfg, ss, msg, what, env, canResume))
            && ss'.key == ss.key && ss'.pwd == ss.pwd && ss'.originSet == ss.originSet
            && (what != CONNECTION_BIND ==> ss'.realm == ss.realm) && (!canResume ==> ss'.oauth == ss.oauth)
            && (cfg.longTerm ==> ss'.nonce == NonceNow(cfg, ss, env)) && (ss'.keySet ==> ss.keySet)
  {
    hide Text, LacksKey, HasIntegrity, RealmFits, SameUser;
    var n := ss.(nonce := NonceNow(cfg, ss, env), nonceExpires := NonceExpiry(cfg, ss, env));
    NamesOnly(cfg, ss, n, msg, what);
  }

  lemma NamesOnly(cfg: Config, ss: Auth, ss': Auth, msg: Bytes, what: nat)
    requires ss'.username == ss.username && ss'.realm == ss.realm && ss'.oauth == ss.oauth
    ensures NamesFit(cfg, ss', msg, what) == NamesFit(cfg, ss, msg, what) && SameUser(ss', msg) == SameUser(ss, msg)
    ensures UserFits(cfg, ss', msg) == UserFits(cfg, ss, msg)
    ensures NamesCode(cfg, ss', msg, what) == NamesCode(cfg, ss, msg, what)
  {
  }

  lemma NamesKeep(cfg: Config, ss: Auth, msg: Bytes, what: nat)
    ensures NamesChecked(cfg, ss, msg, what).nonce == ss.nonce && NamesChecked(cfg, ss, msg, what).key == ss.key
  {
    hide Text, RealmFits, UserFits, SameUser;
  }

  /** The session has something to check an HMAC with. */
  predicate HasKey(ss: Auth) {
    ss.keySet || ss.pwd != []
  }

  // ---- the error codes ----

  /** The code of credentials for another realm or another user. */
  function Mismatch(what: nat): nat {
    if what == ALLOCATE then 437 else 441
  }

  /** The code that the REALM and USERNAME part of the check answers with; 0 when the names fit. */
  function NamesCode(cfg: Config, ss: Auth, msg: Bytes, what: nat): nat {
    var realm, user := Text(msg, REALM, 127), Text(msg, USERNAME, 512);
    if realm.None? || !cfg.secure(realm.value, false) then 400
    else if what != CONNECTION_BIND && realm.value != ss.realm && !ss.oauth then Mismatch(what)
    else if user.None? || !cfg.secure(user.value, true) then 400
    else if ss.username != [] && user.value != ss.username && !ss.oauth then Mismatch(what)
    else 0
  }

  lemma CodeOfNames(cfg: Config, ss: Auth, msg: Bytes, what: nat)
    ensures NamesCode(cfg, ss, msg, what) == 0 <==> NamesFit(cfg, ss, msg, what)
  {
    hide Text;
  }

  /** The code of the whole check; a request that waits for a key lookup has none yet. */
  function AuthCode(cfg: Config, ss: Auth, msg: Bytes, what: nat, env: Env, canResume: bool): nat {
    if !cfg.longTerm then 0
    else if !HasIntegrity(msg) then 401
    else if NamesCode(cfg, ss, msg, what) != 0 then NamesCode(cfg, ss, msg, what)
    else if Text(msg, NONCE, 127).None? then 400
    else if ss.nonce == [] || Text(msg, NONCE, 127).value != NonceNow(cfg, ss, env) then 438
    else if Credible(cfg, ss, msg, what, env) || (canResume && env.postpone) then 0
    else 401
  }

  /** The REALM and USERNAME part of check_stun_auth. */
  method CheckNames(cfg: Config, ss: Auth, msg: Bytes, what: nat) returns (ss': Auth, err: nat)
    ensures err == NamesCode(cfg, ss, msg, what) && (err == 0 <==> NamesFit(cfg, ss, msg, what))
    ensures ss' == NamesChecked(cfg, ss, msg, what)
  {
    hide Text;
    ss' := ss;
    var realm := Text(msg, REALM, 127);
    if realm.None? || !cfg.secure(realm.value, false) {
      return ss', 400;
    }
    if what == CONNECTION_BIND {
      ss' := ss'.(realm := cfg.realmNamed(realm.value));
    } else if realm.value != ss'.realm && !ss'.oauth {
      return ss', if what == ALLOCATE then 437 else 441;
    }

    var user := Text(msg, USERNAME, 512);
    if user.None? || !cfg.secure(user.value, true) {
      return ss', 400;
    }
    if ss'.username == [] {
      ss' := ss'.(username := user.value);
    } else if ss'.username != user.value {
      if !ss'.oauth {
        return ss', if what == ALLOCATE then 437 else 441;
      }
      ss' := ss'.(keySet := false, username := user.value);
    }
    return ss', 0;
  }

  /** Its NONCE, password and MESSAGE-INTEGRITY part. */
  method CheckSecrets(cfg: Config, ss: Auth, msg: Bytes, newNonce: bool, env: Env, canResume: bool)
    returns (ss': Auth, v: Verdict)
    ensures v.integrity <==> !newNonce && (ss.keySet || ss.pwd != []) && Verified(cfg, msg, ss.nonce, ss.key)
    ensures v.err == 0 <==> v.integrity || v.postponed
    ensures v.postponed <==>
              !newNonce && Text(msg, NONCE, 127) == Some(ss.nonce) && !v.integrity && canResume && env.postpone
    ensures var nonce := Text(msg, NONCE, 127);
            v.err == if nonce.None? then 400 else if newNonce || nonce.value != ss.nonce then 438
                     else if v.integrity || v.postponed then 0 else 401
    ensures ss' == if !newNonce && Text(msg, NONCE, 127) == Some(ss.nonce) && !v.integrity && canResume
                   then ss.(oauth := env.oauth) else ss
  {
    hide Text, CheckIntegrity;
    var nonce := Text(msg, NONCE, 127);
    if nonce.None? {
      return ss, Verdict(400, false, false);
    }
    if newNonce || nonce.value != ss.nonce {
      return ss, Verdict(438, false, false);
    }
    if (!ss.keySet && ss.pwd == []) || CheckIntegrity(msg, MacOf(cfg, ss.key), Sha1) < 1 {
      if canResume {
        ss' := ss.(oauth := env.oauth);
        return ss', if env.postpone then Verdict(0, false, true) else Verdict(401, false, false);
      }
      return ss, Verdict(401, false, false);
    }
    return ss, Verdict(0, true, false);
  }

  /**
   What a message that passes says, attribute by attribute: the realm and the user name of the session
   unless these are free, the session's nonce, and an HMAC under its key, which the session has.
   */
  predicate SaysItsOwn(cfg: Config, ss: Auth, ss': Auth, msg: Bytes, what: nat) {
    && Text(msg, REALM, 127).Some?
    && (what == CONNECTION_BIND ==> ss'.realm == cfg.realmNamed(Text(msg, REALM, 127).value))
    && (what != CONNECTION_BIND && !ss.oauth ==> Text(msg, REALM, 127) == Some(ss.realm))
    && (ss.username != [] && !ss.oauth ==> Text(msg, USERNAME, 512) == Some(ss.username))
    && ss.nonce != [] && Text(msg, NONCE, 127) == Some(ss'.nonce) && HasIntegrity(msg)
    && (ss.keySet || ss.pwd != []) && ss'.key == ss.key
    && Text(msg, USERNAME, 512) == Some(ss'.username) && (ss.username !in {[], ss'.username} ==> !ss'.keySet)
  }

  /**
   check_stun_auth.  In long-term mode a request passes exactly when it is credible; it
   then carries the session's nonce and verifies under the session's key.  One that does
   not pass leaves with an error or waits for a lookup.
   */
  method CheckStunAuth(cfg: Config, ss: Auth, msg: Bytes, what: nat, env: Env, canResume: bool)
    returns (ss': Auth, v: Verdict)
    ensures v.integrity <==> cfg.longTerm && Credible(cfg, ss, msg, what, env)
    ensures v.integrity ==> Verified(cfg, msg, ss'.nonce, ss'.key)
    ensures v.integrity ==> SaysItsOwn(cfg, ss, ss', msg, what)
    ensures v.err == AuthCode(cfg, ss, msg, what, env, canResume)
    ensures v.err == 0 <==> !cfg.longTerm || v.integrity || v.postponed
    ensures !(v.postponed && v.integrity)
    ensures v.postponed <==>
              cfg.longTerm && HasIntegrity(msg) && LacksKey(cfg, ss, msg, what, env) && canResume && env.postpone
    ensures ss' == Checked(cfg, ss, msg, what, env, canResume) && (v.postponed ==> ss'.oauth == env.oauth)
  {
    hide Verified, HasIntegrity, RealmFits, UserFits, NamesChecked, SameUser, Text, NamesCode, SaysItsOwn, NonceNow,
         NonceExpiry;
    NeedsIntegrity(cfg, msg, NonceNow(cfg, ss, env), ss.key);
    Says(cfg, ss, msg, what, env, canResume);
    CodeOfNames(cfg, ss, msg, what);
    if !cfg.longTerm {
      return ss, Verdict(0, false, false);
    }
    ss' := RenewNonce(cfg, ss, env);
    NamesOnly(cfg, ss, ss', msg, what);
    NamesKeep(cfg, ss', msg, what);
    ss', v := CheckCredentials(cfg, ss', msg, what, ss.nonce == [], env, canResume);
  }

  /** Its first part: a session without a nonce, or with an expired one, gets a new one. */
  method RenewNonce(cfg: Config, ss: Auth, env: Env) returns (ss': Auth)
    ensures ss' == ss.(nonce := NonceNow(cfg, ss, env), nonceExpires := NonceExpiry(cfg, ss, env))
  {
    ss' := ss;
    if ss.nonce == [] || (cfg.staleNonce != 0 && Before(ss.nonceExpires, env.now)) {
      ss' := ss.(nonce := env.nonce, nonceExpires := Later(env.now, cfg.staleNonce));
    }
  }

  lemma Says(cfg: Config, ss: Auth, msg: Bytes, what: nat, env: Env, canResume: bool)
    ensures cfg.longTerm && Credible(cfg, ss, msg, what, env) ==>
              SaysItsOwn(cfg, ss, Checked(cfg, ss, msg, what, env, canResume), msg, what)
  {
    hide Text, CheckIntegrity, HasIntegrity;
    NeedsIntegrity(cfg, msg, NonceNow(cfg, ss, env), ss.key);
  }

  /** Its part from MESSAGE-INTEGRITY on, once the nonce is up to date. */
  method CheckCredentials(cfg: Config, n: Auth, msg: Bytes, what: nat, newNonce: bool, env: Env, canResume: bool)
    returns (ss': Auth, v: Verdict)
    ensures var fits := HasIntegrity(msg) && NamesFit(cfg, n, msg, what);
            var lacks := fits && !newNonce && Text(msg, NONCE, 127) == Some(n.nonce) && !v.integrity;
            && (v.integrity <==>
                && fits && !newNonce && (n.pwd != [] || (n.keySet && SameUser(n, msg)))
                && Verified(cfg, msg, n.nonce, n.key))
            && (v.err == 0 <==> v.integrity || v.postponed)
            && v.err == (if !HasIntegrity(msg) then 401
                         else if NamesCode(cfg, n, msg, what) != 0 then NamesCode(cfg, n, msg, what)
                         else if Text(msg, NONCE, 127).None? then 400
                         else if newNonce || Text(msg, NONCE, 127).value != n.nonce then 438
                         else if v.integrity || v.postponed then 0 else 401)
            && (v.postponed <==> lacks && canResume && env.postpone)
            && ss' == if !HasIntegrity(msg) then n
                      else if lacks && canResume then NamesChecked(cfg, n, msg, what).(oauth := env.oauth)
                      else NamesChecked(cfg, n, msg, what)
  {
    hide Verified, FindFrom, RealmFits, UserFits, SameUser, Text, NamesCode;
    NeedsIntegrity(cfg, msg, n.nonce, n.key);
    var o := FindByType(msg, MESSAGE_INTEGRITY);
    if o.None? || U16(msg, o.value + 2) != 20 {
      return n, Verdict(401, false, false);
    }
    var err: nat;
    ss', err := CheckNames(cfg, n, msg, what);
    if err != 0 {
      return ss', Verdict(err, false, false);
    }
    ss', v := CheckSecrets(cfg, ss', msg, newNonce, env, canResume);
  }

  lemma NeedsIntegrity(cfg: Config, msg: Bytes, nonce: Bytes, key: Bytes)
    ensures Verified(cfg, msg, nonce, key) ==> HasIntegrity(msg) && Text(msg, NONCE, 127) == Some(nonce)
  {
  }

  /**
   A nonce in numbers: drawn at c, it is the session's until c plus the configured lifetime, and the
   first check after that draws another; without a lifetime it stays.
   */
  lemma NonceLasts(cfg: Config, ss: Auth, env: Env, msg: Bytes, what: nat, canResume: bool, later: Env)
    requires cfg.longTerm && (ss.nonce == [] || (cfg.staleNonce != 0 && ss.nonceExpires < env.now)) && env.nonce != []
    requires ss.nonceExpires < 0x8000_0000 && env.now + cfg.staleNonce < 0x8000_0000 && later.now < 0x8000_0000
    ensures var ss' := Checked(cfg, ss, msg, what, env, canResume);
            && ss'.nonce == env.nonce
            && NonceNow(cfg, ss', later) ==
               if cfg.staleNonce != 0 && env.now + cfg.staleNonce < later.now then later.nonce else env.nonce
  {
    hide Checked;
    CheckedNonce(cfg, ss, msg, what, env, canResume);
  }

  lemma CheckedNonce(cfg: Config, ss: Auth, msg: Bytes, what: nat, env: Env, canResume: bool)
    requires cfg.longTerm
    ensures var ss' := Checked(cfg, ss, msg, what, env, canResume);
            ss'.nonce == NonceNow(cfg, ss, env) && ss'.nonceExpires == NonceExpiry(cfg, ss, env)
  {
    hide Text, HasIntegrity, LacksKey, NamesFit, NamesRealm, SameUser, NonceNow, NonceExpiry;
  }

  // ---- a client of the library passes ----

  lemma {:induction false} CStringOfText(b: Bytes)
    requires 0 !in b
    ensures CString(b) == b
    decreases |b|
  {
    if b != [] {
      CStringOfText(b[1..]);
    }
  }

  /**
   What is read of an attribute, the first of its type, whatever was added behind it: a start of its
   value that holds no zero byte and ends at max bytes, at the first zero or with the value.
   */
  lemma TextReads(b: Bytes, a: Attr, r: Bytes, s: Bytes, max: nat)
    requires WellFormed(b) && CommandLen(b).Some? && AddAttr(b, a) == Some(r) && WellFormed(s) &&
             (Grown(r, s) || s == r)
    requires forall x :: x in Attributes(b) ==> x.typ != a.typ
    ensures var t := Text(s, a.typ, max);
            && t.Some? && t.value <= a.value && |t.value| <= max && 0 !in t.value
            && (|t.value| == max || t.value == a.value || a.value[|t.value|] == 0)
  {
    hide WellFormed, Grown, AddAttr, Attributes, WithLength, Cursor, CString;
    FoundWhereAdded(b, a, r, s);
    GrownCell(b, a, r, s);
    CutText(a.value, max);
  }

  lemma CutText(v: Bytes, max: nat)
    ensures var t := CString(if |v| <= max then v else v[..max]);
            t <= v && |t| <= max && 0 !in t && (|t| == max || t == v || v[|t|] == 0)
  {
  }

  /** The text of an attribute, the first of its type, reads back from whatever the message grows into. */
  lemma TextReadsBack(b: Bytes, a: Attr, r: Bytes, s: Bytes, max: nat)
    requires WellFormed(b) && AddAttr(b, a) == Some(r) && WellFormed(s) && (Grown(r, s) || s == r)
    requires (forall x :: x in Attributes(b) ==> x.typ != a.typ) && 0 !in a.value && |a.value| <= max
    ensures Text(s, a.typ, max) == Some(a.value)
  {
    hide WellFormed, Grown, AddAttr, Attributes, WithLength, Cursor;
    FoundWhereAdded(b, a, r, s);
    GrownCell(b, a, r, s);
    CStringOfText(a.value);
  }

  lemma Added(b: Bytes, a: Attr, r: Bytes)
    requires WellFormed(b) && AddAttr(b, a) == Some(r)
    ensures WellFormed(r) && CommandLen(r).Some? && Grown(b, r) && Attributes(r) == Attributes(b) + [a]
  {
    hide WellFormed, Grown, AddAttr, Attributes;
    AddAttrYields(b, a);
    AddAttrGrows(b, a);
    WellFormedTiled(r);
  }

  /** stun_attr_add_integrity_by_key_str: user name, nonce and realm, then MESSAGE-INTEGRITY. */
  function AddIntegrityByKey(b: Bytes, user: Bytes, nonce: Bytes, realm: Bytes, mac: Bytes -> Bytes): Option<Bytes>
    requires CommandLen(b).Some?
  {
    var m1 := AddAttr(b, Attr(USERNAME, user));
    if m1.None? then None else
      var m2 := AddAttr(m1.value, Attr(NONCE, nonce));
      if m2.None? then None else
        var m3 := AddAttr(m2.value, Attr(REALM, realm));
        if m3.None? then None else AddIntegrity(m3.value, mac, Sha1)
  }

  /** None of the attributes that carry credentials. */
  predicate NoCredentials(attrs: seq<Attr>) {
    forall a :: a in attrs ==> a.typ != USERNAME && a.typ != NONCE && a.typ != REALM && a.typ != MESSAGE_INTEGRITY
  }

  /**
   stun_attr_add_integrity_by_key_str against check_stun_auth: a request that has none of
   the credentials yet, given the user name, the session's nonce and realm and then
   MESSAGE-INTEGRITY under its key, is credible to a session with those values.
   */
  lemma ClientPasses(cfg: Config, ss: Auth, what: nat, env: Env, m: Bytes, user: Bytes, signed: Bytes)
    requires WellFormed(m) && NoCredentials(Attributes(m)) && IsMac(MacOf(cfg, ss.key), Sha1)
    requires AddIntegrityByKey(m, user, ss.nonce, ss.realm, MacOf(cfg, ss.key)) == Some(signed)
    requires 0 !in user && |user| <= 512 && cfg.secure(user, true) && (ss.username == [] || ss.username == user)
    requires 0 !in ss.nonce && 0 < |ss.nonce| <= 127 && NonceNow(cfg, ss, env) == ss.nonce
    requires 0 !in ss.realm && |ss.realm| <= 127 && cfg.secure(ss.realm, false) && ss.keySet
    ensures Credible(cfg, ss, signed, what, env)
  {
    hide WellFormed, Grown, AddAttr, AddIntegrity, Attributes, WithLength, Text, CheckIntegrity, CommandLen, IsMac;
    var mac := MacOf(cfg, ss.key);
    WellFormedTiled(m);
    var m1 := AddAttr(m, Attr(USERNAME, user)).value;
    var m2 := AddAttr(m1, Attr(NONCE, ss.nonce)).value;
    var m3 := AddAttr(m2, Attr(REALM, ss.realm)).value;
    Added(m, Attr(USERNAME, user), m1);
    Added(m1, Attr(NONCE, ss.nonce), m2);
    Added(m2, Attr(REALM, ss.realm), m3);
    IntegrityIsAttr(m3, mac, Sha1);
    Added(m3, Attr(MESSAGE_INTEGRITY, mac(WithLength(m3, |m3| + 4 + Size(Sha1)))), signed);
    GrownTransitive(m2, m3, signed);
    GrownTransitive(m1, m2, signed);
    TextReadsBack(m, Attr(USERNAME, user), m1, signed, 512);
    TextReadsBack(m1, Attr(NONCE, ss.nonce), m2, signed, 127);
    TextReadsBack(m2, Attr(REALM, ss.realm), m3, signed, 127);
    IntegrityAccepted(m3, mac, Sha1, signed, signed);
  }

  /** A message without MESSAGE-INTEGRITY is challenged, whoever sends it. */
  lemma UnsignedRefused(cfg: Config, ss: Auth, msg: Bytes, what: nat, env: Env, canResume: bool)
    requires cfg.longTerm && forall x :: x in Attributes(msg) ==> x.typ != MESSAGE_INTEGRITY
    ensures AuthCode(cfg, ss, msg, what, env, canResume) == 401
  {
    hide Text, NamesCode, Credible;
    FindNone(msg, First(msg), MESSAGE_INTEGRITY);
  }

  // ---- what becomes of any signed message ----

  /** The four attributes that stun_attr_add_integrity_by_key_str adds, read from the message it makes. */
  lemma SignedReads(cfg: Config, m: Bytes, user: Bytes, nonce: Bytes, realm: Bytes, key: Bytes, signed: Bytes,
                    other: Bytes)
    requires WellFormed(m) && NoCredentials(Attributes(m)) && CommandLen(m).Some?
    requires IsMac(MacOf(cfg, key), Sha1) && AddIntegrityByKey(m, user, nonce, realm, MacOf(cfg, key)) == Some(signed)
    requires 0 !in user && |user| <= 512 && 0 !in nonce && |nonce| <= 127 && 0 !in realm && |realm| <= 127
    ensures |signed| >= 24 && HasIntegrity(signed)
    ensures Text(signed, USERNAME, 512) == Some(user) && Text(signed, NONCE, 127) == Some(nonce)
    ensures Text(signed, REALM, 127) == Some(realm)
    ensures var d := signed[..|signed| - 24];
            CheckIntegrity(signed, MacOf(cfg, other), Sha1) == 1 <==> cfg.hmac(key, d) == cfg.hmac(other, d)
  {
    hide WellFormed, Grown, AddAttr, AddIntegrity, Attributes, WithLength, Text, CheckIntegrity, CommandLen, IsMac,
         HasIntegrity;
    var mac := MacOf(cfg, key);
    WellFormedTiled(m);
    var m1 := AddAttr(m, Attr(USERNAME, user)).value;
    var m2 := AddAttr(m1, Attr(NONCE, nonce)).value;
    var m3 := AddAttr(m2, Attr(REALM, realm)).value;
    Added(m, Attr(USERNAME, user), m1);
    Added(m1, Attr(NONCE, nonce), m2);
    Added(m2, Attr(REALM, realm), m3);
    IntegrityIsAttr(m3, mac, Sha1);
    var v := mac(WithLength(m3, |m3| + 24));
    Added(m3, Attr(MESSAGE_INTEGRITY, v), signed);
    GrownTransitive(m2, m3, signed);
    GrownTransitive(m1, m2, signed);
    TextReadsBack(m, Attr(USERNAME, user), m1, signed, 512);
    TextReadsBack(m1, Attr(NONCE, nonce), m2, signed, 127);
    TextReadsBack(m2, Attr(REALM, realm), m3, signed, 127);
    MacSize(mac, WithLength(m3, |m3| + 24));
    SignedTail(m3, v, signed);
    IntegrityDecides(m3, MacOf(cfg, other), Sha1, v, signed, signed);
  }

  lemma MacSize(mac: Bytes -> Bytes, d: Bytes)
    requires IsMac(mac, Sha1)
    ensures |mac(d)| == 20
  {
  }

  lemma SignedTail(m: Bytes, v: Bytes, signed: Bytes)
    requires WellFormed(m) && CommandLen(m).Some? && |v| == 20
    requires AddAttr(m, Attr(MESSAGE_INTEGRITY, v)) == Some(signed)
    requires forall x :: x in Attributes(m) ==> x.typ != MESSAGE_INTEGRITY
    ensures |signed| == |m| + 24 && |m| >= HEADER && |signed| < HEADER + 0x1_0000
    ensures signed[..|m|] == WithLength(m, |signed|) && HasIntegrity(signed)
  {
    hide Extend, WithLength, AddAttr, Attributes, Grown, WellFormed, Cursor, Tiled, Walk;
    var a := Attr(MESSAGE_INTEGRITY, v);
    WellFormedTiled(m);
    AddAttrGrows(m, a);
    AddAttrYields(m, a);
    FoundWhereAdded(m, a, signed, signed);
    GrownCell(m, a, signed, signed);
  }

  /**
   The answer to every message so signed, by its user name, nonce, realm and key alone.  It passes
   exactly with the session's nonce, its realm and user name where these are fixed, and an HMAC that
   the session's own key gives too; every other case has its code.
   */
  lemma SignedAnswer(cfg: Config, ss: Auth, what: nat, env: Env, canResume: bool, m: Bytes, user: Bytes, nonce: Bytes,
                     realm: Bytes, key: Bytes, signed: Bytes)
    requires cfg.longTerm && WellFormed(m) && NoCredentials(Attributes(m)) && CommandLen(m).Some?
    requires IsMac(MacOf(cfg, key), Sha1) && AddIntegrityByKey(m, user, nonce, realm, MacOf(cfg, key)) == Some(signed)
    requires 0 !in user && |user| <= 512 && 0 !in nonce && |nonce| <= 127 && 0 !in realm && |realm| <= 127
    ensures |signed| >= 24
    ensures var d := signed[..|signed| - 24];
            var realmFits := what == CONNECTION_BIND || realm == ss.realm || ss.oauth;
            var known := ss.username == [] || user == ss.username;
            var nonceFits := ss.nonce != [] && nonce == NonceNow(cfg, ss, env);
            var signs := (ss.pwd != [] || (ss.keySet && known)) && cfg.hmac(key, d) == cfg.hmac(ss.key, d);
            var mismatch := if what == ALLOCATE then 437 else 441;
            && AuthCode(cfg, ss, signed, what, env, canResume) ==
               (if !cfg.secure(realm, false) then 400 else if !realmFits then mismatch
                else if !cfg.secure(user, true) then 400 else if !known && !ss.oauth then mismatch
                else if !nonceFits then 438
                else if signs || (canResume && env.postpone) then 0 else 401)
            && (Credible(cfg, ss, signed, what, env) <==>
                && cfg.secure(realm, false) && realmFits && cfg.secure(user, true) && (known || ss.oauth)
                && nonceFits && signs)
  {
    hide WellFormed, AddIntegrityByKey, Attributes, Text, CheckIntegrity, CommandLen, IsMac, HasIntegrity, NonceNow;
    SignedReads(cfg, m, user, nonce, realm, key, signed, ss.key);
  }
}
