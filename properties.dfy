/** What Akami::Wsse2 promises about the objects it configures and the
    headers it builds, stated over the definitions in module Akami (which the
    constructor and the build methods of class Wsse2 are proved to follow). */
module WsseProperties {
  import opened Wrappers
  import opened RubyHash
  import opened HexEncoding
  import opened Runtime
  import opened Akami

  // ---------------------------------------------------------------------
  // Configuration intake (initialize)
  // ---------------------------------------------------------------------

  /** The attributes after n entries depend on those n entries only. */
  lemma {:induction false} AssignedAgree(xs: seq<(Key, Scalar)>, ys: seq<(Key, Scalar)>, n: nat)
    requires n <= |xs| && n <= |ys|
    requires forall j :: 0 <= j < n ==> xs[j] == ys[j]
    ensures AssignedPrefix(xs, n) == AssignedPrefix(ys, n)
    decreases n
  {
    if n > 0 {
      AssignedAgree(xs, ys, n - 1);
    }
  }

  /** Past an unknown entry, the run with it and the run without it stay in step. */
  lemma {:induction false} AssignedSkips(ps1: seq<(Key, Scalar)>, k: Key, v: Scalar, ps2: seq<(Key, Scalar)>, m: nat)
    requires k !in ConfigKeys && m <= |ps2|
    ensures AssignedPrefix(ps1 + [(k, v)] + ps2, |ps1| + 1 + m) == AssignedPrefix(ps1 + ps2, |ps1| + m)
    decreases m
  {
    var xs := ps1 + [(k, v)] + ps2;
    var ys := ps1 + ps2;
    if m == 0 {
      assert xs[|ps1|] == (k, v);
      AssignedAgree(xs, ys, |ps1|);
    } else {
      assert xs[|ps1| + m] == ps2[m - 1] == ys[|ps1| + m - 1];
      AssignedSkips(ps1, k, v, ps2, m - 1);
    }
  }

  /** A key outside CONFIG_KEYS, wherever it appears in params, changes nothing. */
  lemma AssignedIgnoresUnknown(ps1: seq<(Key, Scalar)>, k: Key, v: Scalar, ps2: seq<(Key, Scalar)>)
    requires k !in ConfigKeys
    ensures Assigned(ps1 + [(k, v)] + ps2) == Assigned(ps1 + ps2)
  {
    AssignedSkips(ps1, k, v, ps2, |ps2|);
  }

  /** ... and so the new object is the same with or without it. */
  lemma UnknownKeyIgnored(ps1: seq<(Key, Scalar)>, k: Key, v: Scalar, ps2: seq<(Key, Scalar)>)
    requires k !in ConfigKeys
    ensures Intake(ps1 + [(k, v)] + ps2) == Intake(ps1 + ps2)
  {
    AssignedIgnoresUnknown(ps1, k, v, ps2);
  }

  /** One entry sets the attribute it names and leaves the others. */
  lemma ApplyField(s: Settings, e: (Key, Scalar), a: Attribute)
    ensures Field(Apply(s, e), a) == if AttributeOf(e.0) == Some(a) then e.1 else Field(s, a)
  {
    match AttributeOf(e.0)
    case Some(b) =>
      assert Apply(s, e) == With(s, b, e.1);
    case None =>
  }

  /** Within the first n entries, an attribute holds the value of the last entry that sets it. */
  lemma {:induction false} PrefixLastWins(ps: seq<(Key, Scalar)>, a: Attribute, i: int, n: nat)
    requires 0 <= i < n <= |ps| && AttributeOf(ps[i].0) == Some(a)
    requires forall j :: i < j < n ==> AttributeOf(ps[j].0) != Some(a)
    ensures Field(AssignedPrefix(ps, n), a) == ps[i].1
    decreases n
  {
    ApplyField(AssignedPrefix(ps, n - 1), ps[n - 1], a);
    if i < n - 1 {
      PrefixLastWins(ps, a, i, n - 1);
    }
  }

  /** An attribute holds the value of the last entry of params that sets it. */
  lemma AssignedLastWins(ps: seq<(Key, Scalar)>, a: Attribute, i: int)
    requires 0 <= i < |ps| && AttributeOf(ps[i].0) == Some(a)
    requires forall j :: i < j < |ps| ==> AttributeOf(ps[j].0) != Some(a)
    ensures Field(Assigned(ps), a) == ps[i].1
  {
    PrefixLastWins(ps, a, i, |ps|);
  }

  /** Within the first n entries, an attribute none of them sets stays nil. */
  lemma {:induction false} PrefixNever(ps: seq<(Key, Scalar)>, a: Attribute, n: nat)
    requires n <= |ps|
    requires forall j :: 0 <= j < n ==> AttributeOf(ps[j].0) != Some(a)
    ensures Field(AssignedPrefix(ps, n), a) == Nil
    decreases n
  {
    if n > 0 {
      PrefixNever(ps, a, n - 1);
      ApplyField(AssignedPrefix(ps, n - 1), ps[n - 1], a);
    }
  }

  /** An attribute no entry of params sets stays nil. */
  lemma AssignedNever(ps: seq<(Key, Scalar)>, a: Attribute)
    requires forall j :: 0 <= j < |ps| ==> AttributeOf(ps[j].0) != Some(a)
    ensures Field(Assigned(ps), a) == Nil
  {
    PrefixNever(ps, a, |ps|);
  }

  /** After construction env_namespace is never nil or blank: a blank or
      missing value becomes 'soap', any other one is kept, and the other
      attributes are as assigned. */
  lemma EnvNamespaceNeverBlank(ps: seq<(Key, Scalar)>)
    ensures Present(Intake(ps).envNamespace)
    ensures Blank(Assigned(ps).envNamespace) ==> Intake(ps).envNamespace == Str("soap")
    ensures Present(Assigned(ps).envNamespace) ==> Intake(ps) == Assigned(ps)
    ensures forall a :: a != EnvNamespace ==> Field(Intake(ps), a) == Field(Assigned(ps), a)
  {
    assert "soap"[0] == 's';
  }

  /** Without an :env_namespace entry the namespace is 'soap'. */
  lemma EnvNamespaceDefault(ps: seq<(Key, Scalar)>)
    requires forall j :: 0 <= j < |ps| ==> ps[j].0 != Sym("env_namespace")
    ensures Intake(ps).envNamespace == Str("soap")
  {
    AssignedNever(ps, EnvNamespace);
  }

  /** With one, the last :env_namespace entry decides: kept when present, 'soap' when blank. */
  lemma EnvNamespaceSupplied(ps: seq<(Key, Scalar)>, i: int)
    requires 0 <= i < |ps| && ps[i].0 == Sym("env_namespace")
    requires forall j :: i < j < |ps| ==> ps[j].0 != Sym("env_namespace")
    ensures Intake(ps).envNamespace == if Blank(ps[i].1) then Str("soap") else ps[i].1
  {
    AssignedLastWins(ps, EnvNamespace, i);
  }

  /** For every attribute, the last params entry keyed by its accessor's Symbol
      decides its value; only env_namespace turns a blank one into 'soap'. */
  lemma KeySupplied(ps: seq<(Key, Scalar)>, a: Attribute, i: int)
    requires 0 <= i < |ps| && ps[i].0 == Sym(AccessorName(a))
    requires forall j :: i < j < |ps| ==> ps[j].0 != Sym(AccessorName(a))
    ensures Field(Intake(ps), a) == if a == EnvNamespace && Blank(ps[i].1) then Str("soap") else ps[i].1
  {
    AttributeNamed(a);
    forall j | i < j < |ps|
      ensures AttributeOf(ps[j].0) != Some(a)
    {
    }
    AssignedLastWins(ps, a, i);
    EnvNamespaceNeverBlank(ps);
  }

  /** An attribute whose accessor's Symbol keys no entry is nil, except
      env_namespace, which is 'soap'. */
  lemma KeyAbsent(ps: seq<(Key, Scalar)>, a: Attribute)
    requires forall j :: 0 <= j < |ps| ==> ps[j].0 != Sym(AccessorName(a))
    ensures Field(Intake(ps), a) == if a == EnvNamespace then Str("soap") else Nil
  {
    forall j | 0 <= j < |ps|
      ensures AttributeOf(ps[j].0) != Some(a)
    {
    }
    AssignedNever(ps, a);
    EnvNamespaceNeverBlank(ps);
  }

  // ---------------------------------------------------------------------
  // The attributes of wsse:Security (namespace merge, use_signature? block)
  // ---------------------------------------------------------------------

  /** xmlns:wsse and xmlns:wsu are declared exactly when namespaces are not
      global, mustUnderstand exactly when a signature is used, and in that
      order. */
  lemma SecurityAttributesKeys(s: Settings)
    ensures var sa := SecurityAttributes(s);
      && Unique(sa)
      && Keys(sa) == (if Truthy(s.useGlobalNamespaces) then [] else [XmlnsWsseKey, XmlnsWsuKey])
                     + (if Truthy(s.useSignature) then [MustUnderstandKey(s.envNamespace)] else [])
      && (sa == [] <==> Truthy(s.useGlobalNamespaces) && !Truthy(s.useSignature))
  {
    KeysDistinct();
    MustUnderstandIsNew(s.envNamespace);
  }

  /** The declarations hold the secext and utility URIs, mustUnderstand holds "1". */
  lemma SecurityAttributesFacts(s: Settings)
    ensures var sa := SecurityAttributes(s);
      && Get(sa, XmlnsWsseKey) == (if Truthy(s.useGlobalNamespaces) then Nil else Str(WseNamespace))
      && Get(sa, XmlnsWsuKey) == (if Truthy(s.useGlobalNamespaces) then Nil else Str(WsuNamespace))
      && Get(sa, MustUnderstandKey(s.envNamespace)) == (if Truthy(s.useSignature) then Str("1") else Nil)
  {
    var sa := SecurityAttributes(s);
    SecurityAttributesKeys(s);
    MustUnderstandIsNew(s.envNamespace);
    forall i | 0 <= i < |sa|
      ensures Get(sa, sa[i].0) == sa[i].1
    {
      GetAt(sa, i);
    }
  }

  /** Where build_wsse_header files what: wsse:Security first, then the
      attributes! entry, which holds wsse:Security's own attributes and is
      left out when there are none. */
  lemma SecurityWithParts(s: Settings, o: Oracles, d: Draws, children: Entries)
    ensures var h := SecurityWith(s, o, d, children);
      && At(h, SecurityKey) == Hash([(AttributesKey, IdAttributes(o, d))] + children)
      && KeysOf(h) == [SecurityKey] + (if SecurityAttributes(s) == [] then [] else [AttributesKey])
      && At(At(h, AttributesKey), SecurityKey) == (if SecurityAttributes(s) == [] then Nil else Hash(SecurityAttributes(s)))
  {
    var x := Hash([(AttributesKey, IdAttributes(o, d))] + children);
    FirstEntry(SecurityKey, x, TopAttributes(s), x);
    if SecurityAttributes(s) == [] {
      SingleEntry(SecurityKey, x, AttributesKey, Nil);
    } else {
      var y := Hash([(SecurityKey, Hash(SecurityAttributes(s)))]);
      SecondEntry(SecurityKey, x, AttributesKey, y, y);
      SingleEntry(SecurityKey, Hash(SecurityAttributes(s)), SecurityKey, Nil);
    }
  }

  // ---------------------------------------------------------------------
  // The children of wsse:Security (self.hash = {...} and its two merge! calls)
  // ---------------------------------------------------------------------

  /** wsse:Security holds its attributes!, then wsse:UsernameToken, then
      wsse:Timestamp when there is one; nothing is filed under 'wsu:Timestamp'. */
  lemma SecurityElementKeys(o: Oracles, d: Draws, t: Obj, ts: Entries)
    requires ts == [] || (|ts| == 1 && ts[0].0 == TimestampKey)
    ensures var es := [(AttributesKey, IdAttributes(o, d))] + ([(UsernameTokenKey, t)] + ts);
      && Unique(es)
      && Keys(es) == [AttributesKey, UsernameTokenKey] + (if ts == [] then [] else [TimestampKey])
      && TimestampIdTarget !in Keys(es)
  {
    KeysDistinct();
  }

  /** Its attributes! give the wsu:Id of the token and of 'wsu:Timestamp'
      whatever the flags; its children are the token and the optional
      timestamp. */
  lemma SecurityElementParts(o: Oracles, d: Draws, t: Obj, ts: Entries)
    requires ts == [] || (|ts| == 1 && ts[0].0 == TimestampKey)
    ensures var el := Hash([(AttributesKey, IdAttributes(o, d))] + ([(UsernameTokenKey, t)] + ts));
      && At(el, UsernameTokenKey) == t
      && At(el, TimestampKey) == (if ts == [] then Nil else ts[0].1)
      && At(At(el, AttributesKey), UsernameTokenKey) == Hash([(IdKey, Str("SecurityToken-" + o.uuid(d.uuids)))])
      && At(At(el, AttributesKey), TimestampIdTarget) == Hash([(IdKey, Str("Timestamp-" + o.uuid(d.uuids + 1)))])
  {
    var es := [(AttributesKey, IdAttributes(o, d))] + ([(UsernameTokenKey, t)] + ts);
    SecurityElementKeys(o, d, t, ts);
    GetAt(es, 0);
    GetAt(es, 1);
    if ts != [] {
      GetAt(es, 2);
    }
    KeysDistinct();
    GetAt(IdAttributes(o, d).entries, 0);
    GetAt(IdAttributes(o, d).entries, 1);
  }

  // ---------------------------------------------------------------------
  // wsse:UsernameToken (build_username_token)
  // ---------------------------------------------------------------------

  /** A token hash: Username, Password, attributes!, then an optional Nonce
      and an optional Created; its keys are distinct. */
  lemma TokenListKeys(u: Obj, p: Obj, attrs: Obj, ne: Entries, ce: Entries)
    requires ne == [] || (|ne| == 1 && ne[0].0 == NonceKey)
    requires ce == [] || (|ce| == 1 && ce[0].0 == CreatedKey)
    ensures var tok := [(UsernameKey, u), (PasswordKey, p), (AttributesKey, attrs)] + ne + ce;
      && Keys(tok) == [UsernameKey, PasswordKey, AttributesKey]
                      + (if ne == [] then [] else [NonceKey]) + (if ce == [] then [] else [CreatedKey])
      && Unique(tok)
  {
    KeysDistinct();
    TokenKeysDistinct();
  }

  /** What each key of such a token hash holds. */
  lemma TokenListParts(u: Obj, p: Obj, attrs: Obj, ne: Entries, ce: Entries)
    requires ne == [] || (|ne| == 1 && ne[0].0 == NonceKey)
    requires ce == [] || (|ce| == 1 && ce[0].0 == CreatedKey)
    ensures var tok := [(UsernameKey, u), (PasswordKey, p), (AttributesKey, attrs)] + ne + ce;
      && Get(tok, UsernameKey) == u && Get(tok, PasswordKey) == p && Get(tok, AttributesKey) == attrs
      && Get(tok, NonceKey) == (if ne == [] then Nil else ne[0].1)
      && Get(tok, CreatedKey) == (if ce == [] then Nil else ce[0].1)
  {
    var tok := [(UsernameKey, u), (PasswordKey, p), (AttributesKey, attrs)] + ne + ce;
    TokenListKeys(u, p, attrs, ne, ce);
    GetAt(tok, 0);
    GetAt(tok, 1);
    GetAt(tok, 2);
    if ne != [] {
      GetAt(tok, 3);
    } else {
      TokenKeysDistinct();
      assert NonceKey !in Keys(tok);
    }
    if ce != [] {
      GetAt(tok, 3 + |ne|);
    } else {
      TokenKeysDistinct();
      assert CreatedKey !in Keys(tok);
    }
  }

  /** The token holds Username, Password and its attributes!, then Nonce
      exactly when use_nonce?, then Created exactly when use_created?; the
      Type of the password follows use_digest?. */
  lemma TokenParts(s: Settings, o: Oracles, d: Draws, p: Scalar)
    ensures var tok := TokenBase(s, p) + NonceEntries(s, o, d) + CreatedEntries(s, o, d);
      && Unique(tok)
      && Keys(tok) == [UsernameKey, PasswordKey, AttributesKey]
                      + (if Truthy(s.useNonce) then [NonceKey] else [])
                      + (if Truthy(s.useCreated) then [CreatedKey] else [])
      && Get(tok, UsernameKey) == s.username
      && Get(tok, PasswordKey) == p
      && At(At(Get(tok, AttributesKey), PasswordKey), TypeKey)
         == Str(if Truthy(s.useDigest) then DigestPasswordType else TextPasswordType)
      && Get(tok, NonceKey)
         == (if Truthy(s.useNonce) then Str(Nonce(o, DrawsAfterPassword(s, d))) else Nil)
      && Get(tok, CreatedKey)
         == (if Truthy(s.useCreated) then Str(CurrentTimestamp(o, DrawsAfterNonce(s, d).ticks, None)) else Nil)
  {
    var attrs := Hash([(PasswordKey, Hash([(TypeKey, Str(PasswordType(s)))]))]);
    TokenListKeys(s.username, p, attrs, NonceEntries(s, o, d), CreatedEntries(s, o, d));
    TokenListParts(s.username, p, attrs, NonceEntries(s, o, d), CreatedEntries(s, o, d));
    SingleEntry(PasswordKey, Hash([(TypeKey, Str(PasswordType(s)))]), PasswordKey, Nil);
    SingleEntry(TypeKey, Str(PasswordType(s)), TypeKey, Nil);
  }

  // ---------------------------------------------------------------------
  // The header build_wsse_header returns
  // ---------------------------------------------------------------------

  /** The draws build_username_token starts from: build_wsse_header takes two uuids first. */
  function TokenDraws(d: Draws): Draws {
    d.(uuids := d.uuids + 2)
  }

  /** The wsse:Timestamp child, present when use_timestamp?. */
  function TimestampEntries(s: Settings, o: Oracles, tick: nat): Entries {
    if Truthy(s.useTimestamp) then [(TimestampKey, BuildTimestamp(o, tick))] else []
  }

  /** The tick build_timestamp starts from. */
  function TimestampTick(s: Settings, d: Draws): nat {
    DrawsAfterToken(s, TokenDraws(d)).ticks
  }

  /** TokenAround unfolded at a password in hand; a step of HeaderValue. */
  lemma TokenAroundOk(s: Settings, o: Oracles, d: Draws, p: Scalar)
    ensures TokenAround(s, o, d, Ok(p)) == (Ok(TokenHash(s, o, d, p)), DrawsAfterToken(s, d))
  {
  }

  /** HeaderAround unfolded at a token in hand; a step of HeaderValue. */
  lemma HeaderAroundOk(s: Settings, o: Oracles, d: Draws, t: Obj, d1: Draws)
    ensures HeaderAround(s, o, d, (Ok(t), d1)).0 == Ok(SecurityWith(s, o, d, [(UsernameTokenKey, t)] + TimestampEntries(s, o, d1.ticks)))
  {
    if Truthy(s.useTimestamp) {
      assert [(UsernameTokenKey, t)] + TimestampEntries(s, o, d1.ticks)
          == [(UsernameTokenKey, t), (TimestampKey, BuildTimestamp(o, d1.ticks))];
    } else {
      assert [(UsernameTokenKey, t)] + TimestampEntries(s, o, d1.ticks) == [(UsernameTokenKey, t)];
    }
  }

  /** build_wsse_header stops with TypeError exactly when use_digest? is
      set and the password is not a String. */
  lemma HeaderError(s: Settings, o: Oracles, d: Draws)
    ensures WsseHeader(s, o, d).0.Err? <==> Truthy(s.useDigest) && !s.password.Str?
    ensures WsseHeader(s, o, d).0.Err? ==> WsseHeader(s, o, d).0.error == TypeError
  {
    var d1 := TokenDraws(d);
    assert WsseHeader(s, o, d) == HeaderAround(s, o, d, UsernameToken(s, o, d1));
    assert UsernameToken(s, o, d1) == TokenAround(s, o, d1, PasswordValue(s, o, d1));
  }

  /** Otherwise it returns self.hash with the token and the optional
      timestamp after wsse:Security's attributes!. */
  lemma HeaderValue(s: Settings, o: Oracles, d: Draws)
    requires Truthy(s.useDigest) ==> s.password.Str?
    ensures PasswordValue(s, o, TokenDraws(d)).Ok?
    ensures WsseHeader(s, o, d).0 == Ok(SecurityWith(s, o, d,
      [(UsernameTokenKey, TokenHash(s, o, TokenDraws(d), PasswordValue(s, o, TokenDraws(d)).value))]
      + TimestampEntries(s, o, TimestampTick(s, d))))
  {
    var d1 := TokenDraws(d);
    var p := PasswordValue(s, o, d1).value;
    assert UsernameToken(s, o, d1) == (Ok(TokenHash(s, o, d1, p)), DrawsAfterToken(s, d1)) by {
      TokenAroundOk(s, o, d1, p);
    }
    assert WsseHeader(s, o, d) == HeaderAround(s, o, d, (Ok(TokenHash(s, o, d1, p)), DrawsAfterToken(s, d1)));
    HeaderAroundOk(s, o, d, TokenHash(s, o, d1, p), DrawsAfterToken(s, d1));
  }

  /** In the built header, the attributes of wsse:Security declare
      xmlns:wsse and xmlns:wsu exactly when namespaces are not global, carry
      "#{env_namespace}:mustUnderstand" = "1" exactly when a signature is
      used, after any declarations; the header has an attributes! entry
      only when one of them is there. */
  lemma HeaderSecurityAttributes(s: Settings, o: Oracles, d: Draws)
    requires Truthy(s.useDigest) ==> s.password.Str?
    ensures WsseHeader(s, o, d).0.Ok?
    ensures var h := WsseHeader(s, o, d).0.value;
      var attrs := At(At(h, AttributesKey), SecurityKey);
      && KeysOf(h) == [SecurityKey] + (if Truthy(s.useGlobalNamespaces) && !Truthy(s.useSignature) then [] else [AttributesKey])
      && At(attrs, XmlnsWsseKey) == (if Truthy(s.useGlobalNamespaces) then Nil else Str(WseNamespace))
      && At(attrs, XmlnsWsuKey) == (if Truthy(s.useGlobalNamespaces) then Nil else Str(WsuNamespace))
      && At(attrs, MustUnderstandKey(s.envNamespace)) == (if Truthy(s.useSignature) then Str("1") else Nil)
      && KeysOf(attrs) == (if Truthy(s.useGlobalNamespaces) then [] else [XmlnsWsseKey, XmlnsWsuKey])
                          + (if Truthy(s.useSignature) then [MustUnderstandKey(s.envNamespace)] else [])
  {
    HeaderValue(s, o, d);
    var d1 := TokenDraws(d);
    var children := [(UsernameTokenKey, TokenHash(s, o, d1, PasswordValue(s, o, d1).value))]
                    + TimestampEntries(s, o, TimestampTick(s, d));
    SecurityWithParts(s, o, d, children);
    SecurityAttributesKeys(s);
    SecurityAttributesFacts(s);
  }

  /** The wsse:Security element of the header. */
  lemma SecurityElementOf(s: Settings, o: Oracles, d: Draws)
    requires Truthy(s.useDigest) ==> s.password.Str?
    ensures WsseHeader(s, o, d).0.Ok?
    ensures At(WsseHeader(s, o, d).0.value, SecurityKey) ==
      Hash([(AttributesKey, IdAttributes(o, d))]
           + ([(UsernameTokenKey, TokenHash(s, o, TokenDraws(d), PasswordValue(s, o, TokenDraws(d)).value))]
              + TimestampEntries(s, o, TimestampTick(s, d))))
  {
    HeaderValue(s, o, d);
    var d1 := TokenDraws(d);
    SecurityWithParts(s, o, d, [(UsernameTokenKey, TokenHash(s, o, d1, PasswordValue(s, o, d1).value))]
                               + TimestampEntries(s, o, TimestampTick(s, d)));
  }

  /** In the built header, wsse:Security holds the wsu:Id
      annotations (whatever the flags), the UsernameToken, and the Timestamp
      exactly when use_timestamp?; nothing is filed under 'wsu:Timestamp'. */
  lemma HeaderSecurityElement(s: Settings, o: Oracles, d: Draws)
    requires Truthy(s.useDigest) ==> s.password.Str?
    ensures WsseHeader(s, o, d).0.Ok?
    ensures var el := At(WsseHeader(s, o, d).0.value, SecurityKey);
      && KeysOf(el) == [AttributesKey, UsernameTokenKey] + (if Truthy(s.useTimestamp) then [TimestampKey] else [])
      && HasKey(el, UsernameTokenKey)
      && TimestampIdTarget !in KeysOf(el)
      && At(At(el, AttributesKey), UsernameTokenKey) == Hash([(IdKey, Str("SecurityToken-" + o.uuid(d.uuids)))])
      && At(At(el, AttributesKey), TimestampIdTarget) == Hash([(IdKey, Str("Timestamp-" + o.uuid(d.uuids + 1)))])
  {
    SecurityElementOf(s, o, d);
    var d1 := TokenDraws(d);
    SecurityElementKeys(o, d, TokenHash(s, o, d1, PasswordValue(s, o, d1).value), TimestampEntries(s, o, TimestampTick(s, d)));
    SecurityElementParts(o, d, TokenHash(s, o, d1, PasswordValue(s, o, d1).value), TimestampEntries(s, o, TimestampTick(s, d)));
  }

  /** build_timestamp: wsu:Created from one clock reading, then wsu:Expires
      from the next reading plus 60 seconds. */
  lemma TimestampContents(o: Oracles, tick: nat)
    ensures KeysOf(BuildTimestamp(o, tick)) == [CreatedKey, ExpiresKey]
    ensures At(BuildTimestamp(o, tick), CreatedKey) == Str(o.xmlschema(o.clock(tick)))
    ensures At(BuildTimestamp(o, tick), ExpiresKey) == Str(o.xmlschema(o.clock(tick + 1) + 60))
  {
    KeysDistinct();
    GetAt(BuildTimestamp(o, tick).entries, 0);
    GetAt(BuildTimestamp(o, tick).entries, 1);
  }

  /** In the built header, wsse:Timestamp is there exactly when
      use_timestamp?, built from the clock readings after the token's. */
  lemma HeaderTimestamp(s: Settings, o: Oracles, d: Draws)
    requires Truthy(s.useDigest) ==> s.password.Str?
    ensures WsseHeader(s, o, d).0.Ok?
    ensures At(At(WsseHeader(s, o, d).0.value, SecurityKey), TimestampKey)
            == (if Truthy(s.useTimestamp) then BuildTimestamp(o, TimestampTick(s, d)) else Nil)
  {
    SecurityElementOf(s, o, d);
    var d1 := TokenDraws(d);
    SecurityElementParts(o, d, TokenHash(s, o, d1, PasswordValue(s, o, d1).value), TimestampEntries(s, o, TimestampTick(s, d)));
  }

  /** In the built header, the UsernameToken holds Username, the
      plain password or, when use_digest?, the digest, with the matching
      Type; then Nonce exactly when use_nonce? and Created exactly when
      use_created?, in that order. */
  lemma HeaderUsernameToken(s: Settings, o: Oracles, d: Draws)
    requires Truthy(s.useDigest) ==> s.password.Str?
    ensures WsseHeader(s, o, d).0.Ok?
    ensures var t := At(At(WsseHeader(s, o, d).0.value, SecurityKey), UsernameTokenKey);
      var d1 := TokenDraws(d);
      && KeysOf(t) == [UsernameKey, PasswordKey, AttributesKey]
                      + (if Truthy(s.useNonce) then [NonceKey] else [])
                      + (if Truthy(s.useCreated) then [CreatedKey] else [])
      && At(t, UsernameKey) == s.username
      && At(t, PasswordKey) == (if Truthy(s.useDigest) then DigestPassword(o, d1, s.password).value else s.password)
      && At(At(At(t, AttributesKey), PasswordKey), TypeKey)
         == Str(if Truthy(s.useDigest) then DigestPasswordType else TextPasswordType)
      && At(t, NonceKey) == (if Truthy(s.useNonce) then Str(Nonce(o, DrawsAfterPassword(s, d1))) else Nil)
      && At(t, CreatedKey)
         == (if Truthy(s.useCreated) then Str(o.xmlschema(o.clock(DrawsAfterNonce(s, d1).ticks))) else Nil)
  {
    var d1 := TokenDraws(d);
    var p := PasswordValue(s, o, d1).value;
    var tok := TokenBase(s, p) + NonceEntries(s, o, d1) + CreatedEntries(s, o, d1);
    assert WsseHeader(s, o, d).0.Ok? &&
      At(At(WsseHeader(s, o, d).0.value, SecurityKey), UsernameTokenKey) == Hash(tok) by {
      SecurityElementOf(s, o, d);
      SecurityElementParts(o, d, TokenHash(s, o, d1, p), TimestampEntries(s, o, TimestampTick(s, d)));
    }
    assert p == if Truthy(s.useDigest) then DigestPassword(o, d1, s.password).value else s.password;
    TokenParts(s, o, d1, p);
  }

  lemma TokenListWellFormed(u: Obj, p: Obj, attrs: Obj, ne: Entries, ce: Entries)
    requires !u.Hash? && !p.Hash? && WellFormed(attrs)
    requires ne == [] || (|ne| == 1 && ne[0].0 == NonceKey && ne[0].1.Str?)
    requires ce == [] || (|ce| == 1 && ce[0].0 == CreatedKey && ce[0].1.Str?)
    ensures WellFormed(Hash([(UsernameKey, u), (PasswordKey, p), (AttributesKey, attrs)] + ne + ce))
  {
    var tok := [(UsernameKey, u), (PasswordKey, p), (AttributesKey, attrs)] + ne + ce;
    assert Unique(tok) by {
      TokenListKeys(u, p, attrs, ne, ce);
    }
    forall i | 0 <= i < |tok|
      ensures WellFormed(tok[i].1)
    {
      if i == 3 + |ne| {
        assert tok[i] == ce[0];
      } else if i == 3 {
        assert tok[i] == ne[0];
      }
    }
  }

  lemma TokenWellFormed(s: Settings, o: Oracles, d: Draws, p: Scalar)
    ensures WellFormed(Hash(TokenBase(s, p) + NonceEntries(s, o, d) + CreatedEntries(s, o, d)))
  {
    var attrs := Hash([(PasswordKey, Hash([(TypeKey, Str(PasswordType(s)))]))]);
    assert WellFormed(attrs) by {
      assert WellFormed(Hash([(TypeKey, Str(PasswordType(s)))]));
    }
    TokenListWellFormed(s.username, p, attrs, NonceEntries(s, o, d), CreatedEntries(s, o, d));
  }

  lemma TimestampWellFormed(o: Oracles, tick: nat)
    ensures WellFormed(BuildTimestamp(o, tick))
  {
    KeysDistinct();
  }

  lemma SecurityElementWellFormed(o: Oracles, d: Draws, t: Obj, ts: Entries)
    requires ts == [] || (|ts| == 1 && ts[0].0 == TimestampKey && WellFormed(ts[0].1))
    requires WellFormed(t)
    ensures WellFormed(Hash([(AttributesKey, IdAttributes(o, d))] + ([(UsernameTokenKey, t)] + ts)))
  {
    var es := [(AttributesKey, IdAttributes(o, d))] + ([(UsernameTokenKey, t)] + ts);
    assert WellFormed(IdAttributes(o, d)) by {
      KeysDistinct();
      assert WellFormed(IdAttributes(o, d).entries[0].1) && WellFormed(IdAttributes(o, d).entries[1].1);
    }
    assert Unique(es) by {
      SecurityElementKeys(o, d, t, ts);
    }
    forall i | 0 <= i < |es|
      ensures WellFormed(es[i].1)
    {
      if i >= 2 {
        assert es[i] == ts[0];
      }
    }
  }

  lemma TopAttributesWellFormed(s: Settings)
    ensures WellFormed(Hash(TopAttributes(s)))
  {
    var top := TopAttributes(s);
    if top != [] {
      var sa := SecurityAttributes(s);
      assert WellFormed(Hash(sa)) by {
        SecurityAttributesKeys(s);
        assert forall i :: 0 <= i < |sa| ==> sa[i].1.Str?;
      }
      assert WellFormed(Hash([(SecurityKey, Hash(sa))]));
    }
  }

  lemma SecurityWithWellFormed(s: Settings, o: Oracles, d: Draws, t: Obj, ts: Entries)
    requires ts == [] || (|ts| == 1 && ts[0].0 == TimestampKey && WellFormed(ts[0].1))
    requires WellFormed(t)
    ensures WellFormed(SecurityWith(s, o, d, [(UsernameTokenKey, t)] + ts))
  {
    var el := Hash([(AttributesKey, IdAttributes(o, d))] + ([(UsernameTokenKey, t)] + ts));
    var top := TopAttributes(s);
    SecurityElementWellFormed(o, d, t, ts);
    TopAttributesWellFormed(s);
    var all := [(SecurityKey, el)] + top;
    assert Unique(all);
    forall i | 0 <= i < |all|
      ensures WellFormed(all[i].1)
    {
      if i == 1 {
        assert all[i] == top[0];
      }
    }
  }

  /** The header is a well-formed Ruby hash: no hash in it, at any depth, repeats a key. */
  lemma HeaderWellFormed(s: Settings, o: Oracles, d: Draws)
    ensures WsseHeader(s, o, d).0.Ok? ==> WellFormed(WsseHeader(s, o, d).0.value)
  {
    HeaderError(s, o, d);
    if Truthy(s.useDigest) ==> s.password.Str? {
      HeaderValue(s, o, d);
      var d1 := TokenDraws(d);
      var p := PasswordValue(s, o, d1).value;
      TokenWellFormed(s, o, d1, p);
      TimestampWellFormed(o, TimestampTick(s, d));
      SecurityWithWellFormed(s, o, d, TokenHash(s, o, d1, p), TimestampEntries(s, o, TimestampTick(s, d)));
    }
  }

  // ---------------------------------------------------------------------
  // Draws: SecureRandom.uuid, rand(26) and Time.now calls
  // ---------------------------------------------------------------------

  /** What build_wsse_header consumes: two uuids; a nonce (100 rand(26) and
      one clock reading) and one more clock reading for the digest; a nonce
      for wsse:Nonce; a clock reading for wsu:Created; two for the
      Timestamp. The digest is computed first, so the emitted Nonce and
      Created never reuse its draws. */
  lemma HeaderDraws(s: Settings, o: Oracles, d: Draws)
    ensures var d' := WsseHeader(s, o, d).1;
      var dg := if Truthy(s.useDigest) then 1 else 0;
      && d'.uuids == d.uuids + 2
      && (WsseHeader(s, o, d).0.Err? ==> d'.rolls == d.rolls + 100 && d'.ticks == d.ticks + 2)
      && (WsseHeader(s, o, d).0.Ok? ==>
           && d'.rolls == d.rolls + 100 * dg + (if Truthy(s.useNonce) then 100 else 0)
           && d'.ticks == d.ticks + 2 * dg + (if Truthy(s.useNonce) then 1 else 0)
                          + (if Truthy(s.useCreated) then 1 else 0) + (if Truthy(s.useTimestamp) then 2 else 0))
    ensures var d1 := TokenDraws(d);
      && DrawsAfterPassword(s, d1).uuids == d1.uuids
      && DrawsAfterPassword(s, d1).rolls == d1.rolls + 100 * (if Truthy(s.useDigest) then 1 else 0)
      && DrawsAfterPassword(s, d1).ticks == d1.ticks + 2 * (if Truthy(s.useDigest) then 1 else 0)
  {
    HeaderError(s, o, d);
    var d1 := TokenDraws(d);
    assert WsseHeader(s, o, d) == HeaderAround(s, o, d, UsernameToken(s, o, d1));
    assert UsernameToken(s, o, d1) == TokenAround(s, o, d1, PasswordValue(s, o, d1));
  }

  // ---------------------------------------------------------------------
  // nonce and digest_password
  // ---------------------------------------------------------------------

  /** nonce is the hexdigest of SHA-1 over random_string + current_timestamp:
      40 lower-case hex digits from which that digest can be read back. */
  lemma NonceIsHexDigest(o: Oracles, d: Draws)
    ensures |Nonce(o, d)| == 40
    ensures forall i :: 0 <= i < 40 ==> IsHexDigit(Nonce(o, d)[i])
    ensures Unhex(Nonce(o, d)) == Some(o.sha1(RandomString(o, d.rolls) + CurrentTimestamp(o, d.ticks, None)))
  {
    var digest := o.sha1(RandomString(o, d.rolls) + CurrentTimestamp(o, d.ticks, None));
    HexDigits(digest);
    UnhexHex(digest);
  }

  /** Base64.encode64 ends the digest's Base64 text with a newline, which
      chomp! removes: the password digest is the Base64 text of SHA-1 over
      nonce + current_timestamp + password, without that newline. */
  lemma DigestIsChomped(o: Oracles, d: Draws, password: string)
    ensures var line := o.encode64(o.sha1(DigestToken(o, d, password)));
      DigestPassword(o, d, Str(password)) == Ok(Str(line[..|line| - 1]))
  {
    var line := o.encode64(o.sha1(DigestToken(o, d, password)));
    var text := line[..|line| - 1];
    assert text + "\n" == line;
    ChompNewline(text);
  }

  // ---------------------------------------------------------------------
  // An example
  // ---------------------------------------------------------------------

  /** Akami::Wsse2.new(username: 'alice', password: 'secret') sets those two
      attributes, env_namespace 'soap', and nothing else. */
  lemma PlainIntakeExample()
    ensures Intake([(Sym("username"), Str("alice")), (Sym("password"), Str("secret"))])
         == Unset.(username := Str("alice"), password := Str("secret"), envNamespace := Str("soap"))
  {
    var ps := [(Sym("username"), Str("alice")), (Sym("password"), Str("secret"))];
    assert ConfigKeys[0] == Sym("username") && ConfigKeys[1] == Sym("password");
    assert AssignedPrefix(ps, 1) == Unset.(username := Str("alice"));
    assert Assigned(ps) == Unset.(username := Str("alice"), password := Str("secret"));
  }

  /** The settings of Akami::Wsse2.new(username: 'alice', password: 'secret'). */
  function PlainSettings(): Settings {
    Intake([(Sym("username"), Str("alice")), (Sym("password"), Str("secret"))])
  }

  /** The hash those settings build. */
  lemma PlainHeaderHash(o: Oracles, d: Draws)
    ensures WsseHeader(PlainSettings(), o, d).0 ==
        Ok(Hash([
          (SecurityKey, Hash([
            (AttributesKey, IdAttributes(o, d)),
            (UsernameTokenKey, Hash([
              (UsernameKey, Str("alice")),
              (PasswordKey, Str("secret")),
              (AttributesKey, Hash([(PasswordKey, Hash([(TypeKey, Str(TextPasswordType))]))]))]))])),
          (AttributesKey, Hash([(SecurityKey, Hash([(XmlnsWsseKey, Str(WseNamespace)), (XmlnsWsuKey, Str(WsuNamespace))]))]))]))
  {
    var s := PlainSettings();
    PlainIntakeExample();
    var d1 := TokenDraws(d);
    var base := TokenBase(s, Str("secret"));
    var children := [(UsernameTokenKey, Hash(base))];
    assert WsseHeader(s, o, d).0 == Ok(SecurityWith(s, o, d, children)) by {
      HeaderValue(s, o, d);
      assert TokenHash(s, o, d1, Str("secret")) == Hash(base) by {
        assert base + NonceEntries(s, o, d1) + CreatedEntries(s, o, d1) == base;
      }
      assert children + TimestampEntries(s, o, TimestampTick(s, d)) == children;
    }
    var ns := [(XmlnsWsseKey, Str(WseNamespace)), (XmlnsWsuKey, Str(WsuNamespace))];
    assert SecurityAttributes(s) == ns + [] == ns;
    var el := Hash([(AttributesKey, IdAttributes(o, d)), (UsernameTokenKey, Hash(base))]);
    var top := (AttributesKey, Hash([(SecurityKey, Hash(ns))]));
    assert TopAttributes(s) == [top];
    assert [(AttributesKey, IdAttributes(o, d))] + children == el.entries;
    assert SecurityWith(s, o, d, children) == Hash([(SecurityKey, el), top]);
  }

  /** Akami::Wsse2.new(username: 'alice', password: 'secret') builds a header
      with a plain-text password, the two namespace declarations, the wsu:Id
      annotations and nothing else, and takes only the two uuids. */
  lemma PlainHeaderExample(o: Oracles, d: Draws)
    ensures var s := Intake([(Sym("username"), Str("alice")), (Sym("password"), Str("secret"))]);
      WsseHeader(s, o, d) == (
        Ok(Hash([
          (SecurityKey, Hash([
            (AttributesKey, IdAttributes(o, d)),
            (UsernameTokenKey, Hash([
              (UsernameKey, Str("alice")),
              (PasswordKey, Str("secret")),
              (AttributesKey, Hash([(PasswordKey, Hash([(TypeKey, Str(TextPasswordType))]))]))]))])),
          (AttributesKey, Hash([(SecurityKey, Hash([(XmlnsWsseKey, Str(WseNamespace)), (XmlnsWsuKey, Str(WsuNamespace))]))]))])),
        d.(uuids := d.uuids + 2))
  {
    PlainHeaderHash(o, d);
    assert WsseHeader(PlainSettings(), o, d).1 == d.(uuids := d.uuids + 2) by {
      PlainIntakeExample();
      HeaderDraws(PlainSettings(), o, d);
    }
  }
}
