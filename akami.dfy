/** Akami::Wsse2: builds the `wsse:Security` SOAP header of WS-Security as a
    nested, insertion-ordered Ruby hash (which Gyoku turns into XML).

    The module holds the constants, the configuration intake, the pure
    builders (build_timestamp, digest_password, nonce, current_timestamp,
    random_string), declarative definitions of the hashes the builder
    produces, and the class Wsse2 whose constructor and build methods do the
    work step by step as the Ruby code does. */
module Akami {
  import opened Wrappers
  import opened RubyHash
  import opened HexEncoding
  import opened Runtime

  // NAMESPACES
  const WseNamespace := "http://docs.oasis-open.org/wss/2004/01/oasis-200401-wss-wssecurity-secext-1.0.xsd"
  const WsuNamespace := "http://docs.oasis-open.org/wss/2004/01/oasis-200401-wss-wssecurity-utility-1.0.xsd"
  const TextPasswordType := "http://docs.oasis-open.org/wss/2004/01/oasis-200401-wss-username-token-profile-1.0#PasswordText"
  const DigestPasswordType := "http://docs.oasis-open.org/wss/2004/01/oasis-200401-wss-username-token-profile-1.0#PasswordDigest"
  /** Declared beside the others; the builder never uses it. */
  const Base64Type := "http://docs.oasis-open.org/wss/2004/01/oasis-200401-wss-soap-message-security-1.0#Base64Binary"

  /** CONFIG_KEYS: the only keys of params the constructor acts on. */
  const ConfigKeys: seq<Key> := [
    Sym("username"), Sym("password"), Sym("use_digest"), Sym("use_timestamp"), Sym("use_nonce"),
    Sym("use_created"), Sym("use_signature"), Sym("use_global_namespaces"), Sym("env_namespace")
  ]

  // The keys of the header hash.
  const SecurityKey := Name("wsse:Security")
  const AttributesKey := Sym("attributes!")
  const UsernameTokenKey := Name("wsse:UsernameToken")
  /** The element the second wsu:Id annotation is filed under; the timestamp
      element itself is keyed 'wsse:Timestamp'. */
  const TimestampIdTarget := Name("wsu:Timestamp")
  const TimestampKey := Name("wsse:Timestamp")
  const IdKey := Name("wsu:Id")
  const XmlnsWsseKey := Name("xmlns:wsse")
  const XmlnsWsuKey := Name("xmlns:wsu")
  const UsernameKey := Name("wsse:Username")
  const PasswordKey := Name("wsse:Password")
  const TypeKey := Name("Type")
  const NonceKey := Name("wsse:Nonce")
  const CreatedKey := Name("wsu:Created")
  const ExpiresKey := Name("wsu:Expires")

  /** The sibling keys of the header are pairwise distinct. */
  lemma KeysDistinct()
    ensures UsernameKey != PasswordKey
    ensures CreatedKey != ExpiresKey
    ensures UsernameTokenKey != TimestampKey && UsernameTokenKey != TimestampIdTarget
    ensures TimestampIdTarget != TimestampKey && XmlnsWsseKey != XmlnsWsuKey
  {
    assert UsernameKey.s[5] != PasswordKey.s[5];
    assert CreatedKey.s[4] != ExpiresKey.s[4];
    assert |UsernameTokenKey.s| != |TimestampKey.s| && |UsernameTokenKey.s| != |TimestampIdTarget.s|;
    assert |TimestampIdTarget.s| != |TimestampKey.s| && |XmlnsWsseKey.s| != |XmlnsWsuKey.s|;
  }

  /** The keys build_username_token uses are pairwise distinct. */
  lemma TokenKeysDistinct()
    ensures NonceKey !in [UsernameKey, PasswordKey, AttributesKey]
    ensures CreatedKey !in [UsernameKey, PasswordKey, AttributesKey, NonceKey]
  {
    assert NonceKey.s[5] != UsernameKey.s[5] && NonceKey.s[5] != PasswordKey.s[5];
    assert |CreatedKey.s| != |UsernameKey.s| && |CreatedKey.s| != |NonceKey.s|;
  }

  /** "#{env_namespace}:mustUnderstand" */
  function MustUnderstandKey(envNamespace: Scalar): Key {
    Name(ToS(envNamespace) + ":mustUnderstand")
  }

  /** The nine configuration attributes of a Wsse2 object. */
  datatype Settings = Settings(
    username: Scalar, password: Scalar,
    useDigest: Scalar, useTimestamp: Scalar, useNonce: Scalar, useCreated: Scalar,
    useSignature: Scalar, useGlobalNamespaces: Scalar, envNamespace: Scalar)

  /** Every attribute reads nil until something is assigned to it. */
  const Unset := Settings(Nil, Nil, Nil, Nil, Nil, Nil, Nil, Nil, Nil)

  /** The configuration attributes, one per writer `username=`, `password=`, ... */
  datatype Attribute =
    | Username | Password | UseDigest | UseTimestamp | UseNonce
    | UseCreated | UseSignature | UseGlobalNamespaces | EnvNamespace

  /** The name attr_accessor gives an attribute, which is also its CONFIG_KEYS Symbol. */
  function AccessorName(a: Attribute): (name: string)
    ensures Sym(name) in ConfigKeys
  {
    match a
    case Username => "username"
    case Password => "password"
    case UseDigest => "use_digest"
    case UseTimestamp => "use_timestamp"
    case UseNonce => "use_nonce"
    case UseCreated => "use_created"
    case UseSignature => "use_signature"
    case UseGlobalNamespaces => "use_global_namespaces"
    case EnvNamespace => "env_namespace"
  }

  /** The attribute whose writer `send("#{k}=", v)` calls, for the keys of
      CONFIG_KEYS: the one whose accessor bears the key's name. */
  function AttributeOf(k: Key): (a: Option<Attribute>)
    ensures a.Some? <==> k in ConfigKeys
    ensures a.Some? ==> k == Sym(AccessorName(a.value))
  {
    if k == Sym("username") then Some(Username)
    else if k == Sym("password") then Some(Password)
    else if k == Sym("use_digest") then Some(UseDigest)
    else if k == Sym("use_timestamp") then Some(UseTimestamp)
    else if k == Sym("use_nonce") then Some(UseNonce)
    else if k == Sym("use_created") then Some(UseCreated)
    else if k == Sym("use_signature") then Some(UseSignature)
    else if k == Sym("use_global_namespaces") then Some(UseGlobalNamespaces)
    else if k == Sym("env_namespace") then Some(EnvNamespace)
    else None
  }

  /** The Symbol named after an accessor selects that accessor's attribute, so
      `new(use_nonce: true)` writes use_nonce and no other attribute. */
  lemma AttributeNamed(a: Attribute)
    ensures AttributeOf(Sym(AccessorName(a))) == Some(a)
  {
    match a
    case Username =>
    case Password =>
    case UseDigest =>
    case UseTimestamp =>
    case UseNonce =>
    case UseCreated =>
    case UseSignature =>
    case UseGlobalNamespaces =>
    case EnvNamespace =>
  }

  /** The reader of an attribute. */
  function Field(s: Settings, a: Attribute): Scalar {
    match a
    case Username => s.username
    case Password => s.password
    case UseDigest => s.useDigest
    case UseTimestamp => s.useTimestamp
    case UseNonce => s.useNonce
    case UseCreated => s.useCreated
    case UseSignature => s.useSignature
    case UseGlobalNamespaces => s.useGlobalNamespaces
    case EnvNamespace => s.envNamespace
  }

  /** The writer of an attribute: it sets that attribute and no other. */
  function With(s: Settings, a: Attribute, v: Scalar): (r: Settings)
    ensures Field(r, a) == v
    ensures forall b :: b != a ==> Field(r, b) == Field(s, b)
  {
    match a
    case Username => s.(username := v)
    case Password => s.(password := v)
    case UseDigest => s.(useDigest := v)
    case UseTimestamp => s.(useTimestamp := v)
    case UseNonce => s.(useNonce := v)
    case UseCreated => s.(useCreated := v)
    case UseSignature => s.(useSignature := v)
    case UseGlobalNamespaces => s.(useGlobalNamespaces := v)
    case EnvNamespace => s.(envNamespace := v)
  }

  /** One step of `params.each { |k, v| send("#{k}=", v) if CONFIG_KEYS.include? k }`. */
  function Apply(s: Settings, entry: (Key, Scalar)): Settings {
    match AttributeOf(entry.0)
    case Some(a) => With(s, a, entry.1)
    case None => s
  }

  /** The attributes once the first n entries of params are applied. */
  function AssignedPrefix(params: seq<(Key, Scalar)>, n: nat): Settings
    requires n <= |params|
    decreases n
  {
    if n == 0 then Unset else Apply(AssignedPrefix(params, n - 1), params[n - 1])
  }

  /** The attributes after the whole params loop. */
  function Assigned(params: seq<(Key, Scalar)>): Settings {
    AssignedPrefix(params, |params|)
  }

  /** env_namespace becomes 'soap' when it is nil or blank: afterwards it is
      present, a present value is kept, and no other attribute changes. */
  function Normalized(s: Settings): (r: Settings)
    ensures Present(r.envNamespace)
    ensures Present(s.envNamespace) ==> r == s
    ensures r.(envNamespace := s.envNamespace) == s
  {
    assert "soap"[0] == 's';
    if s.envNamespace.Nil? || Blank(s.envNamespace) then s.(envNamespace := Str("soap")) else s
  }

  /** The attributes a new Wsse2 object has: those params assigns, except that
      env_namespace is always present. */
  function Intake(params: seq<(Key, Scalar)>): (r: Settings)
    ensures Present(r.envNamespace)
    ensures r.(envNamespace := Assigned(params).envNamespace) == Assigned(params)
  {
    Normalized(Assigned(params))
  }

  /** ('a'..'z').to_a */
  const Alphabet: string := seq(26, i requires 0 <= i < 26 => ('a' as int + i) as char)

  /** n letters, the i-th picked by rand(26) draw number roll + i. */
  function RandomLetters(o: Oracles, roll: nat, n: nat): (r: string)
    ensures |r| == n
    decreases n
  {
    if n == 0 then [] else RandomLetters(o, roll, n - 1) + [Alphabet[o.rand26(roll + n - 1)]]
  }

  /** The i-th letter is the one rand(26) draw number roll + i picks. */
  lemma {:induction false} RandomLettersAt(o: Oracles, roll: nat, n: nat)
    ensures forall i :: 0 <= i < n ==> RandomLetters(o, roll, n)[i] == Alphabet[o.rand26(roll + i)]
    decreases n
  {
    if n > 0 {
      RandomLettersAt(o, roll, n - 1);
    }
  }

  /** random_string: 100 letters from draws roll .. roll + 99. */
  function RandomString(o: Oracles, roll: nat): (r: string)
    ensures |r| == 100
  {
    RandomLetters(o, roll, 100)
  }

  /** Every letter of random_string is one of a-z. */
  lemma RandomStringLetters(o: Oracles, roll: nat)
    ensures forall i :: 0 <= i < 100 ==> RandomString(o, roll)[i] == Alphabet[o.rand26(roll + i)]
    ensures forall i :: 0 <= i < 100 ==> 'a' <= RandomString(o, roll)[i] <= 'z'
  {
    RandomLettersAt(o, roll, 100);
  }

  /** current_timestamp(offset): clock reading number tick, shifted by the
      offset when there is one, as an XML Schema dateTime. */
  function CurrentTimestamp(o: Oracles, tick: nat, offset: Option<int>): (r: string)
    ensures r == o.xmlschema(o.clock(tick) + if offset.Some? then offset.value else 0)
  {
    match offset
    case None => o.xmlschema(o.clock(tick))
    case Some(seconds) => o.xmlschema(o.clock(tick) + seconds)
  }

  /** nonce: Digest::SHA1.hexdigest(random_string + current_timestamp), reading
      rand draws d.rolls .. d.rolls + 99 and clock reading d.ticks. */
  function Nonce(o: Oracles, d: Draws): (r: string)
    ensures |r| == 40
  {
    var digest := o.sha1(RandomString(o, d.rolls) + CurrentTimestamp(o, d.ticks, None));
    assert |digest| == 20;
    Hex(digest)
  }

  /** The draws left after nonce. */
  function AfterNonce(d: Draws): Draws {
    d.(rolls := d.rolls + 100, ticks := d.ticks + 1)
  }

  /** The draws left after digest_password: a nonce and one more clock reading. */
  function AfterDigest(d: Draws): Draws {
    AfterNonce(d).(ticks := d.ticks + 2)
  }

  /** The string digest_password hashes: nonce + current_timestamp + password. */
  function DigestToken(o: Oracles, d: Draws, password: string): string {
    Nonce(o, d) + CurrentTimestamp(o, d.ticks + 1, None) + password
  }

  /** digest_password: Base64.encode64(Digest::SHA1.digest(token)).chomp!
      String#+ raises TypeError when the password is not a String. */
  function DigestPassword(o: Oracles, d: Draws, password: Scalar): (r: Result<Scalar>)
    ensures r.Err? <==> !password.Str?
    ensures r.Ok? ==> r.value.Str?
  {
    if password.Str? then Ok(ChompBang(o.encode64(o.sha1(DigestToken(o, d, password.s)))))
    else Err(TypeError)
  }

  /** build_timestamp, reading clock readings tick and tick + 1. */
  function BuildTimestamp(o: Oracles, tick: nat): (r: Obj)
    ensures KeysOf(r) == [CreatedKey, ExpiresKey]
  {
    Hash([(CreatedKey, Str(CurrentTimestamp(o, tick, None))),
          (ExpiresKey, Str(CurrentTimestamp(o, tick + 1, Some(60))))])
  }

  /** The Type attribute of wsse:Password. */
  function PasswordType(s: Settings): string {
    if Truthy(s.useDigest) then DigestPasswordType else TextPasswordType
  }

  /** The password build_username_token puts in the token. */
  function PasswordValue(s: Settings, o: Oracles, d: Draws): Result<Scalar> {
    if Truthy(s.useDigest) then DigestPassword(o, d, s.password) else Ok(s.password)
  }

  /** The draws left once the password is computed. */
  function DrawsAfterPassword(s: Settings, d: Draws): Draws {
    if Truthy(s.useDigest) then AfterDigest(d) else d
  }

  /** The draws left once the nonce, if any, is computed. */
  function DrawsAfterNonce(s: Settings, d: Draws): Draws {
    var d1 := DrawsAfterPassword(s, d);
    if Truthy(s.useNonce) then AfterNonce(d1) else d1
  }

  /** The draws build_username_token leaves. */
  function DrawsAfterToken(s: Settings, d: Draws): Draws {
    var d2 := DrawsAfterNonce(s, d);
    if Truthy(s.useCreated) then d2.(ticks := d2.ticks + 1) else d2
  }

  /** Username, Password and the Type annotation of the password. */
  function TokenBase(s: Settings, password: Scalar): Entries {
    [(UsernameKey, s.username), (PasswordKey, password),
     (AttributesKey, Hash([(PasswordKey, Hash([(TypeKey, Str(PasswordType(s)))]))]))]
  }

  function NonceEntries(s: Settings, o: Oracles, d: Draws): Entries {
    if Truthy(s.useNonce) then [(NonceKey, Str(Nonce(o, DrawsAfterPassword(s, d))))] else []
  }

  function CreatedEntries(s: Settings, o: Oracles, d: Draws): Entries {
    if Truthy(s.useCreated) then [(CreatedKey, Str(CurrentTimestamp(o, DrawsAfterNonce(s, d).ticks, None)))] else []
  }

  /** The hash build_username_token returns, and the draws it leaves. */
  function UsernameToken(s: Settings, o: Oracles, d: Draws): (r: (Result<Obj>, Draws))
    ensures r.0.Err? <==> Truthy(s.useDigest) && !s.password.Str?
    ensures r.1 == if r.0.Ok? then DrawsAfterToken(s, d) else DrawsAfterPassword(s, d)
  {
    TokenAround(s, o, d, PasswordValue(s, o, d))
  }

  /** What build_username_token makes of the outcome of computing the password. */
  function TokenAround(s: Settings, o: Oracles, d: Draws, password: Result<Scalar>): (r: (Result<Obj>, Draws))
    ensures r.0.Err? <==> password.Err?
    ensures r.0.Err? ==> r.0.error == password.error
    ensures r.0.Ok? ==> (r.0.value.Hash? && |r.0.value.entries| >= 3
      && r.0.value.entries[0] == (UsernameKey, s.username) && r.0.value.entries[1] == (PasswordKey, password.value))
  {
    match password
    case Err(e) => (Err(e), DrawsAfterPassword(s, d))
    case Ok(p) => (Ok(TokenHash(s, o, d, p)), DrawsAfterToken(s, d))
  }

  /** The token hash build_username_token returns for password p. */
  function TokenHash(s: Settings, o: Oracles, d: Draws, p: Scalar): Obj {
    Hash(TokenBase(s, p) + NonceEntries(s, o, d) + CreatedEntries(s, o, d))
  }

  /** The wsu:Id annotations filed under wsse:Security's own attributes!. */
  function IdAttributes(o: Oracles, d: Draws): Obj {
    Hash([(UsernameTokenKey, Hash([(IdKey, Str("SecurityToken-" + o.uuid(d.uuids)))])),
          (TimestampIdTarget, Hash([(IdKey, Str("Timestamp-" + o.uuid(d.uuids + 1)))]))])
  }

  /** The xmlns declarations on wsse:Security, unless namespaces are global. */
  function NamespaceDeclarations(s: Settings): Entries {
    if Truthy(s.useGlobalNamespaces) then [] else [(XmlnsWsseKey, Str(WseNamespace)), (XmlnsWsuKey, Str(WsuNamespace))]
  }

  /** The attributes of the wsse:Security element itself. */
  function SecurityAttributes(s: Settings): Entries {
    NamespaceDeclarations(s) + (if Truthy(s.useSignature) then [(MustUnderstandKey(s.envNamespace), Str("1"))] else [])
  }

  /** What the `hash.merge!({ :attributes! => ... }) unless use_global_namespaces?`
      of build_wsse_header adds to self.hash. */
  function NamespaceAttributes(s: Settings): Entries {
    if Truthy(s.useGlobalNamespaces) then []
    else [(AttributesKey, Hash([(SecurityKey, Hash(NamespaceDeclarations(s)))]))]
  }

  lemma TopAttributesCases(s: Settings)
    ensures !Truthy(s.useSignature) ==> TopAttributes(s) == NamespaceAttributes(s)
    ensures Truthy(s.useSignature) ==> (TopAttributes(s) ==
      [(AttributesKey, Hash([(SecurityKey, Hash(NamespaceDeclarations(s) + [(MustUnderstandKey(s.envNamespace), Str("1"))]))]))])
  {
    if !Truthy(s.useSignature) {
      assert SecurityAttributes(s) == NamespaceDeclarations(s);
    }
  }

  /** The top-level attributes! entry; there is none when nothing is put in it. */
  function TopAttributes(s: Settings): Entries {
    if SecurityAttributes(s) == [] then [] else [(AttributesKey, Hash([(SecurityKey, Hash(SecurityAttributes(s)))]))]
  }

  /** self.hash with the given children after the attributes! of wsse:Security. */
  function SecurityWith(s: Settings, o: Oracles, d: Draws, children: Entries): (h: Obj)
    ensures h.Hash? && 1 <= |h.entries| <= 2
    ensures h.entries[0] == (SecurityKey, Hash([(AttributesKey, IdAttributes(o, d))] + children))
  {
    Hash([(SecurityKey, Hash([(AttributesKey, IdAttributes(o, d))] + children))] + TopAttributes(s))
  }

  /** self.hash once the namespace declarations and mustUnderstand are in,
      before wsse:UsernameToken is merged. */
  function Skeleton(s: Settings, o: Oracles, d: Draws): Obj {
    SecurityWith(s, o, d, [])
  }

  /** The hash build_wsse_header returns, and the draws it leaves. */
  function WsseHeader(s: Settings, o: Oracles, d: Draws): (r: (Result<Obj>, Draws))
    ensures r.0.Err? <==> Truthy(s.useDigest) && !s.password.Str?
    ensures r.0.Ok? ==> r.0.value.Hash? && |r.0.value.entries| >= 1 && r.0.value.entries[0].0 == SecurityKey
    ensures r.1.uuids == d.uuids + 2
  {
    HeaderAround(s, o, d, UsernameToken(s, o, d.(uuids := d.uuids + 2)))
  }

  /** What build_wsse_header makes of the outcome of build_username_token. */
  function HeaderAround(s: Settings, o: Oracles, d: Draws, token: (Result<Obj>, Draws)): (r: (Result<Obj>, Draws))
    ensures r.0.Err? <==> token.0.Err?
    ensures r.0.Ok? ==> r.0.value.Hash? && |r.0.value.entries| >= 1 && r.0.value.entries[0].0 == SecurityKey
    ensures r.1.uuids == token.1.uuids
  {
    var (t, d1) := token;
    match t
    case Err(e) => (Err(e), d1)
    case Ok(t) =>
      if Truthy(s.useTimestamp) then
        (Ok(SecurityWith(s, o, d, [(UsernameTokenKey, t), (TimestampKey, BuildTimestamp(o, d1.ticks))])),
         d1.(ticks := d1.ticks + 2))
      else (Ok(SecurityWith(s, o, d, [(UsernameTokenKey, t)])), d1)
  }

  /** merge!({'wsse:Nonce' => nonce}) appends to the base token. */
  lemma NonceStep(s: Settings, o: Oracles, d: Draws, password: Scalar)
    requires Truthy(s.useNonce)
    ensures Merge(TokenBase(s, password), [(NonceKey, Str(Nonce(o, DrawsAfterPassword(s, d))))])
         == TokenBase(s, password) + NonceEntries(s, o, d)
  {
    TokenKeysDistinct();
    assert Keys(TokenBase(s, password)) == [UsernameKey, PasswordKey, AttributesKey];
  }

  /** merge!({'wsu:Created' => current_timestamp}) appends to the token built so far. */
  lemma CreatedStep(s: Settings, o: Oracles, d: Draws, password: Scalar)
    requires Truthy(s.useCreated)
    ensures var es := TokenBase(s, password) + NonceEntries(s, o, d);
      Merge(es, [(CreatedKey, Str(CurrentTimestamp(o, DrawsAfterNonce(s, d).ticks, None)))])
      == es + CreatedEntries(s, o, d)
  {
    TokenKeysDistinct();
    var es := TokenBase(s, password) + NonceEntries(s, o, d);
    KeysAppendAll(TokenBase(s, password), NonceEntries(s, o, d));
    assert Keys(es) == [UsernameKey, PasswordKey, AttributesKey] + if Truthy(s.useNonce) then [NonceKey] else [];
    assert CreatedKey !in Keys(es);
  }

  /** The mustUnderstand attribute never collides with the namespace declarations. */
  lemma MustUnderstandIsNew(envNamespace: Scalar)
    ensures MustUnderstandKey(envNamespace) != XmlnsWsseKey && MustUnderstandKey(envNamespace) != XmlnsWsuKey
    ensures MustUnderstandKey(envNamespace) !in Keys([(XmlnsWsseKey, Str(WseNamespace)), (XmlnsWsuKey, Str(WsuNamespace))])
  {
    assert |MustUnderstandKey(envNamespace).s| >= 15;
  }

  /** The `if use_signature?` block of build_wsse_header step by step when no
      namespace declarations were merged. */
  lemma SignatureOnGlobal(top: (Key, Obj), mu: (Key, Obj))
    requires top.0 == SecurityKey
    ensures !Present(Get([top], AttributesKey))
    ensures Store([top], AttributesKey, Hash([])) == [top, (AttributesKey, Hash([]))]
    ensures Get([top, (AttributesKey, Hash([]))], AttributesKey) == Hash([])
    ensures !Present(Get([], SecurityKey)) && Store([], SecurityKey, Hash([])) == [(SecurityKey, Hash([]))]
    ensures Get([(SecurityKey, Hash([]))], SecurityKey) == Hash([])
    ensures Merge([], [mu]) == [mu]
    ensures Store([(SecurityKey, Hash([]))], SecurityKey, Hash([mu])) == [(SecurityKey, Hash([mu]))]
    ensures Store([top, (AttributesKey, Hash([]))], AttributesKey, Hash([(SecurityKey, Hash([mu]))])) ==
      [top, (AttributesKey, Hash([(SecurityKey, Hash([mu]))]))]
  {
    SingleEntry(SecurityKey, top.1, AttributesKey, Hash([]));
    SecondEntry(SecurityKey, top.1, AttributesKey, Hash([]), Hash([(SecurityKey, Hash([mu]))]));
    SingleEntry(SecurityKey, Hash([]), SecurityKey, Hash([mu]));
    assert Disjoint([], [mu]);
  }

  /** The `if use_signature?` block step by step when the declarations ns were
      merged before it. */
  lemma SignatureOnLocal(top: (Key, Obj), ns: Entries, mu: (Key, Obj))
    requires top.0 == SecurityKey && ns != [] && Unique(ns) && mu.0 !in Keys(ns)
    ensures Get([top, (AttributesKey, Hash([(SecurityKey, Hash(ns))]))], AttributesKey) == Hash([(SecurityKey, Hash(ns))])
    ensures Get([(SecurityKey, Hash(ns))], SecurityKey) == Hash(ns)
    ensures Merge(ns, [mu]) == ns + [mu]
    ensures Store([(SecurityKey, Hash(ns))], SecurityKey, Hash(ns + [mu])) == [(SecurityKey, Hash(ns + [mu]))]
    ensures Store([top, (AttributesKey, Hash([(SecurityKey, Hash(ns))]))], AttributesKey, Hash([(SecurityKey, Hash(ns + [mu]))])) ==
      [top, (AttributesKey, Hash([(SecurityKey, Hash(ns + [mu]))]))]
  {
    SecondEntry(SecurityKey, top.1, AttributesKey, Hash([(SecurityKey, Hash(ns))]), Hash([(SecurityKey, Hash(ns + [mu]))]));
    SingleEntry(SecurityKey, Hash(ns), SecurityKey, Hash(ns + [mu]));
    assert Disjoint(ns, [mu]);
  }

  /** The `if use_signature?` block on the hash the namespace merge leaves,
      whether or not the declarations ns were merged. */
  lemma SignatureSteps(top: (Key, Obj), ns: Entries, mu: (Key, Obj))
    requires top.0 == SecurityKey && Unique(ns) && mu.0 !in Keys(ns)
    ensures var inner := if ns == [] then [] else [(SecurityKey, Hash(ns))];
      && Vivify(if ns == [] then [top] else [top, (AttributesKey, Hash(inner))], AttributesKey) == [top, (AttributesKey, Hash(inner))]
      && Get([top, (AttributesKey, Hash(inner))], AttributesKey) == Hash(inner)
      && Vivify(inner, SecurityKey) == [(SecurityKey, Hash(ns))]
      && Get([(SecurityKey, Hash(ns))], SecurityKey) == Hash(ns)
      && Merge(ns, [mu]) == ns + [mu]
      && Store([(SecurityKey, Hash(ns))], SecurityKey, Hash(ns + [mu])) == [(SecurityKey, Hash(ns + [mu]))]
      && Store([top, (AttributesKey, Hash(inner))], AttributesKey, Hash([(SecurityKey, Hash(ns + [mu]))])) ==
        [top, (AttributesKey, Hash([(SecurityKey, Hash(ns + [mu]))]))]
  {
    if ns == [] {
      SignatureOnGlobal(top, mu);
      assert [] + [mu] == [mu];
    } else {
      SignatureOnLocal(top, ns, mu);
    }
  }

  /** The `if use_signature?` block as one step: mustUnderstand lands after the
      namespace declarations ns. */
  lemma SignatureMerged(top: (Key, Obj), ns: Entries, envNamespace: Scalar)
    requires top.0 == SecurityKey
    requires ns == [] || ns == [(XmlnsWsseKey, Str(WseNamespace)), (XmlnsWsuKey, Str(WsuNamespace))]
    ensures
      var h := if ns == [] then [top] else [top, (AttributesKey, Hash([(SecurityKey, Hash(ns))]))];
      var entries := Vivify(h, AttributesKey);
      var attrs := Vivify(Get(entries, AttributesKey).entries, SecurityKey);
      var mustUnderstand := (MustUnderstandKey(envNamespace), Str("1"));
      var security := Merge(Get(attrs, SecurityKey).entries, [mustUnderstand]);
      Store(entries, AttributesKey, Hash(Store(attrs, SecurityKey, Hash(security)))) ==
        [top, (AttributesKey, Hash([(SecurityKey, Hash(ns + [mustUnderstand]))]))]
  {
    MustUnderstandIsNew(envNamespace);
    SignatureSteps(top, ns, (MustUnderstandKey(envNamespace), Str("1")));
  }

  /** The children merged into wsse:Security come after its attributes! and are new. */
  lemma UsernameTokenIsNew(o: Oracles, d: Draws, t: Obj)
    ensures UsernameTokenKey !in Keys([(AttributesKey, IdAttributes(o, d))] + [])
    ensures TimestampKey !in Keys([(AttributesKey, IdAttributes(o, d))] + [(UsernameTokenKey, t)])
  {
    assert Keys([(AttributesKey, IdAttributes(o, d))] + [(UsernameTokenKey, t)]) == [AttributesKey, UsernameTokenKey];
  }

  class Wsse2 {
    var hash: Obj
    var attributes: Obj
    var username: Scalar
    var password: Scalar
    var useDigest: Scalar
    var useTimestamp: Scalar
    var useNonce: Scalar
    var useCreated: Scalar
    var useSignature: Scalar
    var useGlobalNamespaces: Scalar
    var envNamespace: Scalar

    /** The configuration attributes as a value. */
    function Current(): Settings
      reads this`username, this`password, this`useDigest, this`useTimestamp, this`useNonce,
        this`useCreated, this`useSignature, this`useGlobalNamespaces, this`envNamespace
    {
      Settings(username, password, useDigest, useTimestamp, useNonce, useCreated,
               useSignature, useGlobalNamespaces, envNamespace)
    }

    /** initialize(params) */
    constructor (params: seq<(Key, Scalar)>)
      ensures Current() == Intake(params)
      ensures hash == Nil && attributes == Nil
    {
      hash, attributes := Nil, Nil;
      username, password := Nil, Nil;
      useDigest, useTimestamp, useNonce, useCreated := Nil, Nil, Nil, Nil;
      useSignature, useGlobalNamespaces, envNamespace := Nil, Nil, Nil;
      new;
      var i := 0;
      while i < |params|
        invariant 0 <= i <= |params|
        invariant Current() == AssignedPrefix(params, i)
        invariant hash == Nil && attributes == Nil
      {
        var (k, v) := params[i];
        if k in ConfigKeys {
          Assign(k, v);
        }
        i := i + 1;
      }
      ghost var intake := Current();
      assert intake == Assigned(params);
      if envNamespace.Nil? || Blank(envNamespace) {
        envNamespace := Str("soap");
        assert Current() == intake.(envNamespace := Str("soap"));
      }
    }

    /** send("#{k}=", v) for a key of CONFIG_KEYS. */
    method Assign(k: Key, v: Scalar)
      requires k in ConfigKeys
      modifies this
      ensures Current() == With(old(Current()), AttributeOf(k).value, v)
      ensures hash == old(hash) && attributes == old(attributes)
    {
      match AttributeOf(k).value
      case Username => username := v;
      case Password => password := v;
      case UseDigest => useDigest := v;
      case UseTimestamp => useTimestamp := v;
      case UseNonce => useNonce := v;
      case UseCreated => useCreated := v;
      case UseSignature => useSignature := v;
      case UseGlobalNamespaces => useGlobalNamespaces := v;
      case EnvNamespace => envNamespace := v;
    }

    // The use_*? readers, taken as conditions the way `if` takes them: each
    // agrees with the attribute of Current() that the definitions read.
    predicate UseDigest()
      reads this
      ensures UseDigest() <==> Truthy(Current().useDigest)
    {
      Truthy(useDigest)
    }
    predicate UseTimestamp()
      reads this
      ensures UseTimestamp() <==> Truthy(Current().useTimestamp)
    {
      Truthy(useTimestamp)
    }
    predicate UseNonce()
      reads this
      ensures UseNonce() <==> Truthy(Current().useNonce)
    {
      Truthy(useNonce)
    }
    predicate UseCreated()
      reads this
      ensures UseCreated() <==> Truthy(Current().useCreated)
    {
      Truthy(useCreated)
    }
    predicate UseSignature()
      reads this
      ensures UseSignature() <==> Truthy(Current().useSignature)
    {
      Truthy(useSignature)
    }
    predicate UseGlobalNamespaces()
      reads this
      ensures UseGlobalNamespaces() <==> Truthy(Current().useGlobalNamespaces)
    {
      Truthy(useGlobalNamespaces)
    }

    /** The `'wsse:Password' => (use_digest? ? digest_password : password)` entry
        of build_username_token, and the draws it takes. */
    method PasswordField(o: Oracles, d: Draws) returns (pw: Result<Scalar>, d': Draws)
      ensures pw == PasswordValue(Current(), o, d) && d' == DrawsAfterPassword(Current(), d)
    {
      if UseDigest() {
        pw := DigestPassword(o, d, password);
        d' := AfterDigest(d);
      } else {
        pw := Ok(password);
        d' := d;
      }
    }

    /** `token_hash.merge!({ 'wsse:Nonce' => nonce }) if use_nonce?` */
    method MergeNonce(o: Oracles, ghost d: Draws, ghost pw: Scalar, tokenHash: Entries, d1: Draws)
      returns (t: Entries, d': Draws)
      requires tokenHash == TokenBase(Current(), pw) && d1 == DrawsAfterPassword(Current(), d)
      ensures t == TokenBase(Current(), pw) + NonceEntries(Current(), o, d)
      ensures d' == DrawsAfterNonce(Current(), d)
    {
      ghost var s := Current();
      if UseNonce() {
        var nonce := (NonceKey, Str(Nonce(o, d1)));
        assert Merge(tokenHash, [nonce]) == TokenBase(s, pw) + NonceEntries(s, o, d) by {
          NonceStep(s, o, d, pw);
        }
        t, d' := Merge(tokenHash, [nonce]), AfterNonce(d1);
      } else {
        assert tokenHash + [] == tokenHash;
        t, d' := tokenHash, d1;
      }
    }

    /** `token_hash.merge!({ 'wsu:Created' => current_timestamp }) if use_created?` */
    method MergeCreated(o: Oracles, ghost d: Draws, ghost pw: Scalar, tokenHash: Entries, d1: Draws)
      returns (t: Entries, d': Draws)
      requires tokenHash == TokenBase(Current(), pw) + NonceEntries(Current(), o, d)
      requires d1 == DrawsAfterNonce(Current(), d)
      ensures t == TokenBase(Current(), pw) + NonceEntries(Current(), o, d) + CreatedEntries(Current(), o, d)
      ensures d' == DrawsAfterToken(Current(), d)
    {
      ghost var s := Current();
      if UseCreated() {
        var created := (CreatedKey, Str(CurrentTimestamp(o, d1.ticks, None)));
        assert Merge(tokenHash, [created]) == TokenBase(s, pw) + NonceEntries(s, o, d) + CreatedEntries(s, o, d) by {
          CreatedStep(s, o, d, pw);
        }
        t, d' := Merge(tokenHash, [created]), d1.(ticks := d1.ticks + 1);
      } else {
        assert tokenHash + [] == tokenHash;
        t, d' := tokenHash, d1;
      }
    }

    /** The token hash build_username_token assembles once the password is known:
        Username, Password and its Type, then wsse:Nonce and wsu:Created when
        use_nonce? and use_created? ask for them. */
    method TokenEntries(o: Oracles, ghost d: Draws, pw: Scalar, d1: Draws) returns (tokenHash: Entries, d': Draws)
      requires d1 == DrawsAfterPassword(Current(), d)
      ensures tokenHash == TokenBase(Current(), pw) + NonceEntries(Current(), o, d) + CreatedEntries(Current(), o, d)
      ensures d' == DrawsAfterToken(Current(), d)
    {
      tokenHash := [
        (UsernameKey, username),
        (PasswordKey, pw),
        (AttributesKey, Hash([(PasswordKey, Hash([(TypeKey, Str(if UseDigest() then DigestPasswordType else TextPasswordType))]))]))
      ];
      assert tokenHash == TokenBase(Current(), pw);
      tokenHash, d' := MergeNonce(o, d, pw, tokenHash, d1);
      tokenHash, d' := MergeCreated(o, d, pw, tokenHash, d');
    }

    /** build_username_token, with the draws it starts from and leaves. */
    method BuildUsernameToken(o: Oracles, d: Draws) returns (token: Result<Obj>, d': Draws)
      ensures (token, d') == UsernameToken(Current(), o, d)
    {
      ghost var s := Current();
      var password;
      password, d' := PasswordField(o, d);
      assert UsernameToken(s, o, d) == TokenAround(s, o, d, password);
      if password.Err? {
        return Err(password.error), d';
      }
      var tokenHash;
      tokenHash, d' := TokenEntries(o, d, password.value, d');
      token := Ok(Hash(tokenHash));
    }

    /** `hash.merge!({ :attributes! => { 'wsse:Security' => { xmlns... } } })`:
        declares the wsse and wsu namespaces on wsse:Security. */
    method MergeNamespaces(ghost top: (Key, Obj))
      requires top.0 == SecurityKey && hash == Hash([top])
      modifies this`hash
      ensures hash == Hash([top, (AttributesKey, Hash([(SecurityKey,
                Hash([(XmlnsWsseKey, Str(WseNamespace)), (XmlnsWsuKey, Str(WsuNamespace))]))]))])
    {
      ghost var namespaces := (AttributesKey, Hash([(SecurityKey,
                Hash([(XmlnsWsseKey, Str(WseNamespace)), (XmlnsWsuKey, Str(WsuNamespace))]))]));
      assert Keys([top]) == [SecurityKey];
      MergeNew([top], namespaces);
      hash := Hash(Merge(hash.entries, [(AttributesKey, Hash([(SecurityKey,
                Hash([(XmlnsWsseKey, Str(WseNamespace)), (XmlnsWsuKey, Str(WsuNamespace))]))]))]));
    }

    /** The `if use_signature?` block: files "<env>:mustUnderstand" => '1' among the attributes of
        wsse:Security, creating the attributes! entries it needs on the way. */
    method MergeMustUnderstand(ghost top: (Key, Obj), ghost ns: Entries)
      requires top.0 == SecurityKey
      requires ns == [] || ns == [(XmlnsWsseKey, Str(WseNamespace)), (XmlnsWsuKey, Str(WsuNamespace))]
      requires hash == Hash(if ns == [] then [top] else [top, (AttributesKey, Hash([(SecurityKey, Hash(ns))]))])
      modifies this`hash
      ensures hash == Hash([top, (AttributesKey, Hash([(SecurityKey, Hash(ns + [(MustUnderstandKey(envNamespace), Str("1"))]))]))])
    {
      var mustUnderstand := (MustUnderstandKey(envNamespace), Str("1"));
      var entries := Vivify(hash.entries, AttributesKey);
      var attrs := Vivify(Get(entries, AttributesKey).entries, SecurityKey);
      var security := Merge(Get(attrs, SecurityKey).entries, [mustUnderstand]);
      assert Store(entries, AttributesKey, Hash(Store(attrs, SecurityKey, Hash(security))))
          == [top, (AttributesKey, Hash([(SecurityKey, Hash(ns + [mustUnderstand]))]))] by {
        SignatureMerged(top, ns, envNamespace);
      }
      hash := Hash(Store(entries, AttributesKey, Hash(Store(attrs, SecurityKey, Hash(security)))));
    }

    /** The namespace merge and the `if use_signature?` block of build_wsse_header:
        they put the attributes! entry the flags call for after wsse:Security. */
    method MergeSecurityAttributes(ghost top: (Key, Obj))
      requires top.0 == SecurityKey && hash == Hash([top])
      modifies this`hash
      ensures hash == Hash([top] + TopAttributes(Current()))
    {
      ghost var s := Current();
      ghost var ns := NamespaceDeclarations(s);
      if !UseGlobalNamespaces() {
        MergeNamespaces(top);
      }
      assert hash == Hash(if ns == [] then [top] else [top, (AttributesKey, Hash([(SecurityKey, Hash(ns))]))]);
      if UseSignature() {
        MergeMustUnderstand(top, ns);
        assert hash == Hash([top] + TopAttributes(s)) by {
          TopAttributesCases(s);
        }
      } else {
        assert hash == Hash([top] + TopAttributes(s)) by {
          TopAttributesCases(s);
        }
      }
    }

    /** `self.hash = {...}` and the attribute merges: the hash before any child
        goes into wsse:Security. */
    method BuildSkeleton(o: Oracles, d: Draws)
      modifies this`hash
      ensures hash == Skeleton(Current(), o, d)
    {
      hash := Hash([(SecurityKey, Hash([(AttributesKey, Hash([
                (UsernameTokenKey, Hash([(IdKey, Str("SecurityToken-" + o.uuid(d.uuids)))])),
                (TimestampIdTarget, Hash([(IdKey, Str("Timestamp-" + o.uuid(d.uuids + 1)))]))]))]))]);
      ghost var top := (SecurityKey, Hash([(AttributesKey, IdAttributes(o, d))]));
      assert hash == Hash([top]);
      MergeSecurityAttributes(top);
      assert [(AttributesKey, IdAttributes(o, d))] + [] == [(AttributesKey, IdAttributes(o, d))];
    }

    /** hash['wsse:Security'].merge!({ key => value }) for a key
        wsse:Security does not hold yet. */
    method MergeIntoSecurity(ghost o: Oracles, ghost d: Draws, ghost children: Entries, child: (Key, Obj))
      requires child.0 !in Keys([(AttributesKey, IdAttributes(o, d))] + children)
      requires hash == SecurityWith(Current(), o, d, children)
      modifies this`hash
      ensures hash == SecurityWith(Current(), o, d, children + [child])
    {
      ghost var before := [(AttributesKey, IdAttributes(o, d))] + children;
      ghost var rest := TopAttributes(Current());
      FirstEntry(SecurityKey, Hash(before), rest, Hash(before + [child]));
      MergeNew(before, child);
      assert before + [child] == [(AttributesKey, IdAttributes(o, d))] + (children + [child]);
      var security := Merge(Get(hash.entries, SecurityKey).entries, [child]);
      hash := Hash(Store(hash.entries, SecurityKey, Hash(security)));
    }

    /** The end of build_wsse_header, once build_username_token has returned:
        the two `hash['wsse:Security'].merge!` calls (the token, then the
        timestamp when use_timestamp?), or nothing when the token raised. */
    method FinishHeader(o: Oracles, ghost d: Draws, token: Result<Obj>, d1: Draws) returns (r: Result<Obj>, d': Draws)
      requires hash == Skeleton(Current(), o, d)
      modifies this`hash
      ensures (r, d') == HeaderAround(Current(), o, d, (token, d1))
      ensures r.Ok? ==> hash == r.value
      ensures r.Err? ==> hash == Skeleton(Current(), o, d)
    {
      if token.Err? {
        return Err(token.error), d1;
      }
      var entry := (UsernameTokenKey, token.value);
      assert entry.0 !in Keys([(AttributesKey, IdAttributes(o, d))] + []) && [entry] == [] + [entry] by {
        UsernameTokenIsNew(o, d, token.value);
      }
      MergeIntoSecurity(o, d, [], entry);
      d' := d1;
      if UseTimestamp() {
        var timestamp := (TimestampKey, BuildTimestamp(o, d'.ticks));
        assert timestamp.0 !in Keys([(AttributesKey, IdAttributes(o, d))] + [entry])
            && [entry] + [timestamp] == [entry, timestamp] by {
          UsernameTokenIsNew(o, d, token.value);
        }
        MergeIntoSecurity(o, d, [entry], timestamp);
        d' := d'.(ticks := d'.ticks + 2);
      }
      r := Ok(hash);
    }

    /** build_wsse_header: assembles self.hash step by step and returns it.
        When digest_password raises, self.hash keeps what was built before. */
    method BuildWsseHeader(o: Oracles, d: Draws) returns (r: Result<Obj>, d': Draws)
      modifies this`hash
      ensures (r, d') == WsseHeader(Current(), o, d)
      ensures r.Ok? ==> hash == r.value
      ensures r.Err? ==> hash == Skeleton(Current(), o, d)
    {
      BuildSkeleton(o, d);
      var token, d1 := BuildUsernameToken(o, d.(uuids := d.uuids + 2));
      r, d' := FinishHeader(o, d, token, d1);
    }
  }
}
