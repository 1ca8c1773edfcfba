# Akami::Wsse2 in Dafny

A model of `Akami::Wsse2` (lib/akami/wsse2.rb), the class that builds the
`wsse:Security` SOAP header of WS-Security as a nested, insertion-ordered Ruby
hash. Gyoku later turns that hash into XML. The model covers two things:

- **Configuration intake.** `initialize` keeps only the keys of `CONFIG_KEYS`,
  calling each one's writer in the order the keys come. It then replaces a nil
  or blank `env_namespace` with `'soap'`.
- **Header assembly.** `build_wsse_header`, `build_username_token` and
  `build_timestamp` decide from six flags which entries go into the header
  and in which order. The pure helpers `digest_password`, `nonce`,
  `current_timestamp` and `random_string` supply the values.

Files:

- `wrappers.dfy`: `Option`, and `Result` with the one error the builder can
  raise (`TypeError`).
- `rubyhash.dfy`: the Ruby values involved:
  - nil, booleans, Strings, and Hashes kept as ordered entry lists;
  - `h[k]`, `h[k] = v`, `merge!`, and the `h[k] = {} unless h[k].present?` idiom;
  - ActiveSupport's `blank?`/`present?`, truthiness, `to_s` and `String#chomp!`.
- `hex.dfy`: the lower-case hex rendering of `Digest::SHA1.hexdigest` and its
  inverse.
- `runtime.dfy`: the outside world as oracles:
  - the clock, `SecureRandom.uuid`, `rand(26)`, `Time#xmlschema`, SHA-1 and
    Base64 are function-typed fields;
  - the clock, uuid and rand oracles are indexed by draw number;
  - `Draws` counts how many clock readings, uuids and random letters have
    been used.
- `akami.dfy`: the model itself:
  - the constants, the configuration attributes (`Settings`) and their intake;
  - the pure builders;
  - functions that define the hashes the builder produces;
  - class `Wsse2`. Its constructor loops over `params` and its build methods
    update `hash` step by step the way the Ruby code does. Each is proved to
    produce those defining functions.
- `properties.dfy`: what the header promises for every combination of flags:
  presence, absence, order and values of every entry; well-formedness; the
  draws consumed; the nonce and digest formulas; a worked example.

Every call to `nonce` or `current_timestamp` takes fresh draws. The
`wsse:Nonce` and `wsu:Created` the token carries are therefore taken from
later draws than the ones the password digest hashes, and nothing ties them
to those values (`HeaderDraws`, `HeaderUsernameToken`). They may still
coincide: two clock readings within the same second render the same
`xmlschema` text.

## Model

| member | source | states |
|---|---|---|
| Akami.AttributeOf | lib/akami/wsse2.rb:19-41 | a key names a configuration attribute exactly when it is one of the nine Symbols of CONFIG_KEYS, and then the attribute is the one whose attr_accessor bears the key's name |
| Akami.AttributeNamed | lib/akami/wsse2.rb:33-47 | the Symbol of each accessor's name selects that accessor's attribute, so `send("#{k}=", v)` writes the attribute named k |
| Akami.With | lib/akami/wsse2.rb:31-41 | an attribute writer sets its own attribute to the value and leaves the eight others unchanged |
| Akami.Normalized | lib/akami/wsse2.rb:51-53 | afterwards env_namespace is present; a present value leaves the attributes as they were; no attribute but env_namespace changes |
| Akami.Intake | lib/akami/wsse2.rb:45-54 | a new object's env_namespace is present, and every other attribute is the one params assigns |
| Akami.Wsse2.constructor | lib/akami/wsse2.rb:45-54 | the new object's attributes are the intake of params (each CONFIG_KEYS entry written in order, then a nil or blank env_namespace becomes 'soap'); hash and attributes stay nil |
| Akami.Wsse2.Assign | lib/akami/wsse2.rb:47 | `send("#{k}=", v)` changes exactly the attribute k names, and neither hash nor attributes |
| WsseProperties.ApplyField | lib/akami/wsse2.rb:47 | one params entry sets the attribute its key names and keeps every other attribute |
| WsseProperties.AssignedAgree | lib/akami/wsse2.rb:46-48 | the attributes after n entries depend only on those n entries |
| WsseProperties.AssignedSkips | lib/akami/wsse2.rb:46-48 | after an entry whose key is not in CONFIG_KEYS, the run with it and the run without it stay equal entry by entry |
| WsseProperties.AssignedIgnoresUnknown | lib/akami/wsse2.rb:46-48 | inserting an entry whose key is not in CONFIG_KEYS anywhere in params leaves every attribute as it was |
| WsseProperties.UnknownKeyIgnored | lib/akami/wsse2.rb:45-54 | the constructed object is the same with or without such an entry |
| WsseProperties.PrefixLastWins | lib/akami/wsse2.rb:46-48 | within the first n entries, an attribute holds the value of the last entry that sets it |
| WsseProperties.AssignedLastWins | lib/akami/wsse2.rb:46-48 | an attribute holds the value of the last entry of params that sets it |
| WsseProperties.PrefixNever | lib/akami/wsse2.rb:46-48 | within the first n entries, an attribute that none of them sets stays nil |
| WsseProperties.AssignedNever | lib/akami/wsse2.rb:46-48 | an attribute no entry of params sets stays nil |
| WsseProperties.EnvNamespaceNeverBlank | lib/akami/wsse2.rb:51-53 | after construction env_namespace is present; a blank or nil value became 'soap', a present one is kept, and the other attributes are untouched |
| WsseProperties.EnvNamespaceDefault | lib/akami/wsse2.rb:51-53 | without an :env_namespace entry the namespace is 'soap' |
| WsseProperties.EnvNamespaceSupplied | lib/akami/wsse2.rb:46-53 | with one, the last :env_namespace entry decides: its value when it is present, 'soap' when it is blank |
| WsseProperties.KeySupplied | lib/akami/wsse2.rb:45-54 | for each of the nine attributes, the last params entry keyed by its accessor's Symbol gives its value; only env_namespace replaces a nil or blank value by 'soap' |
| WsseProperties.KeyAbsent | lib/akami/wsse2.rb:45-54 | an attribute whose Symbol keys no entry is nil, except env_namespace, which is 'soap' |
| WsseProperties.PlainIntakeExample | lib/akami/wsse2.rb:45-54 | `new(username: 'alice', password: 'secret')` sets those two attributes, env_namespace 'soap', and nothing else |
| Akami.Wsse2.UseDigest | lib/akami/wsse2.rb:57-59 | use_digest? holds exactly when the stored use_digest is truthy |
| Akami.Wsse2.UseTimestamp | lib/akami/wsse2.rb:61-63 | use_timestamp? holds exactly when the stored use_timestamp is truthy |
| Akami.Wsse2.UseNonce | lib/akami/wsse2.rb:65-67 | use_nonce? holds exactly when the stored use_nonce is truthy |
| Akami.Wsse2.UseCreated | lib/akami/wsse2.rb:69-71 | use_created? holds exactly when the stored use_created is truthy |
| Akami.Wsse2.UseSignature | lib/akami/wsse2.rb:73-75 | use_signature? holds exactly when the stored use_signature is truthy |
| Akami.Wsse2.UseGlobalNamespaces | lib/akami/wsse2.rb:77-79 | use_global_namespaces? holds exactly when the stored use_global_namespaces is truthy |
| Akami.Wsse2.PasswordField | lib/akami/wsse2.rb:131 | the password entry is digest_password when use_digest? and the plain password otherwise, with the draws each takes |
| Akami.UsernameToken | lib/akami/wsse2.rb:127-144 | build_username_token raises exactly when use_digest? is set and the password is not a String; it leaves the draws after the password, nonce and created it computed, or only the password's on TypeError |
| Akami.TokenAround | lib/akami/wsse2.rb:127-144 | given the password entry, the token fails exactly when the password did, with its error; otherwise it is a hash of at least three entries starting with Username and that Password |
| Akami.Wsse2.MergeNonce | lib/akami/wsse2.rb:140 | the `merge!` of wsse:Nonce, when use_nonce?, leaves the base token followed by the nonce the definition gives, and takes the nonce's draws |
| Akami.Wsse2.MergeCreated | lib/akami/wsse2.rb:142 | the `merge!` of wsu:Created, when use_created?, appends the created timestamp the definition gives, and takes one clock reading |
| Akami.Wsse2.TokenEntries | lib/akami/wsse2.rb:129-142 | the token hash built step by step is Username, Password and Type, then the optional Nonce and Created, with the draws they take |
| Akami.Wsse2.BuildUsernameToken | lib/akami/wsse2.rb:127-144 | build_username_token returns the defining token hash (or the TypeError) and leaves the draws the definition says |
| Akami.KeysDistinct | lib/akami/wsse2.rb:89-149 | the header's sibling keys are pairwise distinct (Username/Password, Created/Expires, UsernameToken/Timestamp/'wsu:Timestamp', xmlns:wsse/xmlns:wsu) |
| Akami.TokenKeysDistinct | lib/akami/wsse2.rb:129-142 | wsse:Nonce and wsu:Created are new keys for the token hash they are merged into |
| Akami.NonceStep | lib/akami/wsse2.rb:140 | merging the nonce appends wsse:Nonce after Username, Password and attributes! |
| Akami.CreatedStep | lib/akami/wsse2.rb:142 | merging the timestamp appends wsu:Created after those and the optional Nonce |
| WsseProperties.TokenListKeys | lib/akami/wsse2.rb:129-142 | a token hash has the keys Username, Password, attributes!, then an optional Nonce and an optional Created, all distinct |
| WsseProperties.TokenListParts | lib/akami/wsse2.rb:129-142 | each key of such a token hash holds the value put under it; a missing Nonce or Created reads nil |
| WsseProperties.TokenParts | lib/akami/wsse2.rb:129-143 | the token has wsse:Nonce exactly when use_nonce? and wsu:Created exactly when use_created?, in the order Username, Password, attributes!, Nonce, Created; Type is the PasswordDigest URI when use_digest? and the PasswordText URI otherwise |
| Akami.Wsse2.MergeNamespaces | lib/akami/wsse2.rb:103-110 | the merge adds a top-level attributes! entry declaring xmlns:wsse and xmlns:wsu, in that order, after wsse:Security |
| Akami.MustUnderstandIsNew | lib/akami/wsse2.rb:116 | the "#{env_namespace}:mustUnderstand" key never collides with xmlns:wsse or xmlns:wsu |
| Akami.SignatureOnGlobal | lib/akami/wsse2.rb:113-117 | without prior declarations, the two `= {} unless ... present?` steps create attributes! and its wsse:Security entry, and the merge! puts mustUnderstand in it |
| Akami.SignatureOnLocal | lib/akami/wsse2.rb:113-117 | with the xmlns declarations already merged, the signature steps keep them and append mustUnderstand after them |
| Akami.SignatureSteps | lib/akami/wsse2.rb:114-116 | the two previous cases as one set of step-by-step facts |
| Akami.SignatureMerged | lib/akami/wsse2.rb:114-116 | the signature steps leave wsse:Security's attributes as the declarations followed by mustUnderstand = "1" |
| Akami.Wsse2.MergeMustUnderstand | lib/akami/wsse2.rb:113-117 | after the signature steps the top-level attributes! holds the prior declarations followed by mustUnderstand = "1" |
| Akami.TopAttributesCases | lib/akami/wsse2.rb:103-117 | the top-level attributes! entry is the namespace merge alone without a signature, and that plus mustUnderstand with one |
| Akami.Wsse2.MergeSecurityAttributes | lib/akami/wsse2.rb:102-117 | the namespace merge and the signature block leave wsse:Security followed by the top-level attributes! entry the flags call for, or nothing when there are no attributes |
| Akami.Wsse2.BuildSkeleton | lib/akami/wsse2.rb:89-117 | before any child is merged, self.hash is wsse:Security with its wsu:Id annotations, followed by the attributes! entry the flags call for |
| Akami.UsernameTokenIsNew | lib/akami/wsse2.rb:120-123 | wsse:UsernameToken and then wsse:Timestamp are new keys of wsse:Security when they are merged in |
| Akami.Wsse2.MergeIntoSecurity | lib/akami/wsse2.rb:120-123 | `hash['wsse:Security'].merge!` with a new key appends the child to wsse:Security and changes nothing else |
| Akami.SecurityWith | lib/akami/wsse2.rb:89-123 | the header is a hash of one or two entries whose first is wsse:Security holding its wsu:Id annotations followed by the given children |
| Akami.Wsse2.FinishHeader | lib/akami/wsse2.rb:119-124 | after build_username_token, self.hash gets the token and, when use_timestamp?, the timestamp merged into wsse:Security; a raised token leaves the skeleton |
| Akami.HeaderAround | lib/akami/wsse2.rb:119-124 | the header fails exactly when the token did; otherwise it is a hash starting with wsse:Security; it takes no further uuids |
| Akami.WsseHeader | lib/akami/wsse2.rb:87-125 | build_wsse_header raises exactly when use_digest? is set and the password is not a String; otherwise it returns a hash starting with wsse:Security; it takes two uuids |
| Akami.Wsse2.BuildWsseHeader | lib/akami/wsse2.rb:87-125 | build_wsse_header returns the defining header and draws; self.hash holds the result, or the skeleton when digest_password raised |
| WsseProperties.HeaderError | lib/akami/wsse2.rb:131 | building fails exactly when use_digest? is set and the password is not a String, and then with TypeError |
| WsseProperties.SecurityAttributesKeys | lib/akami/wsse2.rb:103-117 | wsse:Security's attributes are xmlns:wsse and xmlns:wsu exactly when namespaces are not global, then mustUnderstand exactly when a signature is used; none exist exactly when namespaces are global and there is no signature |
| WsseProperties.SecurityAttributesFacts | lib/akami/wsse2.rb:12-14 | the declarations hold the secext and utility URIs (nil when namespaces are global), and mustUnderstand holds "1" exactly when use_signature? |
| WsseProperties.SecurityWithParts | lib/akami/wsse2.rb:89-117 | the header's keys are wsse:Security, then attributes! only when wsse:Security has attributes; attributes!['wsse:Security'] holds exactly those attributes |
| WsseProperties.HeaderSecurityAttributes | lib/akami/wsse2.rb:103-117 | in the built header: the namespace URIs exactly when namespaces are not global; mustUnderstand = "1" exactly when use_signature?, kept after any declarations; the order of those keys; attributes! present only when one of them is |
| WsseProperties.SecurityElementKeys | lib/akami/wsse2.rb:89-123 | wsse:Security's keys are attributes!, wsse:UsernameToken, then wsse:Timestamp when there is one; they are distinct, and no child is keyed 'wsu:Timestamp' |
| WsseProperties.SecurityElementParts | lib/akami/wsse2.rb:89-123 | wsse:Security holds the token and the optional timestamp; its attributes! give the SecurityToken- and Timestamp- wsu:Ids from the two uuids |
| WsseProperties.HeaderSecurityElement | lib/akami/wsse2.rb:89-123 | in the built header, wsse:UsernameToken is always present; wsse:Timestamp is present exactly when use_timestamp?; the wsu:Id annotations are there whatever the flags |
| WsseProperties.HeaderUsernameToken | lib/akami/wsse2.rb:127-144 | the built token has Username; Password as the plain password, or the digest when use_digest?; the matching Type URI; Nonce exactly when use_nonce? and Created exactly when use_created?, in that order, with their values |
| Akami.BuildTimestamp | lib/akami/wsse2.rb:146-153 | build_timestamp has exactly the keys wsu:Created and wsu:Expires, in that order |
| Akami.CurrentTimestamp | lib/akami/wsse2.rb:165-171 | current_timestamp(offset) is the xmlschema of the clock reading, shifted by the offset when one is given |
| WsseProperties.TimestampContents | lib/akami/wsse2.rb:146-153 | build_timestamp has exactly wsu:Created from one clock reading, then wsu:Expires from the next reading plus 60 seconds |
| WsseProperties.HeaderTimestamp | lib/akami/wsse2.rb:123 | wsse:Security holds build_timestamp, taken from the clock after the token's readings, exactly when use_timestamp?, and nil otherwise |
| WsseProperties.TokenListWellFormed | lib/akami/wsse2.rb:129-142 | a token hash of scalar values repeats no key at any depth |
| WsseProperties.TokenWellFormed | lib/akami/wsse2.rb:129-143 | the hash build_username_token returns repeats no key at any depth |
| WsseProperties.TimestampWellFormed | lib/akami/wsse2.rb:146-153 | the hash build_timestamp returns repeats no key |
| WsseProperties.SecurityElementWellFormed | lib/akami/wsse2.rb:89-123 | wsse:Security with a well-formed token and timestamp repeats no key at any depth |
| WsseProperties.TopAttributesWellFormed | lib/akami/wsse2.rb:103-117 | the top-level attributes! entry repeats no key at any depth |
| WsseProperties.SecurityWithWellFormed | lib/akami/wsse2.rb:89-123 | the assembled header with well-formed children repeats no key at any depth |
| WsseProperties.HeaderWellFormed | lib/akami/wsse2.rb:87-125 | every header build_wsse_header returns is a well-formed Ruby hash in which no hash repeats a key |
| WsseProperties.HeaderDraws | lib/akami/wsse2.rb:87-144 | the header takes two uuids; the digest takes 100 letters and two clock readings before anything else; a nonce takes 100 letters and one reading; Created one reading; the timestamp two; on TypeError only the digest's draws are gone |
| WsseProperties.PlainHeaderExample | lib/akami/wsse2.rb:87-144 | for alice/secret with no flags, the header is exactly wsse:Security with the Id annotations and a plain-text token, plus the namespace declarations, and it takes only the two uuids |
| Akami.RandomLetters | lib/akami/wsse2.rb:173-175 | n random letters make a string of length n |
| Akami.RandomLettersAt | lib/akami/wsse2.rb:174 | the i-th letter is the alphabet letter rand(26) draw number roll + i picks |
| Akami.RandomString | lib/akami/wsse2.rb:173-175 | random_string has length 100 |
| Akami.RandomStringLetters | lib/akami/wsse2.rb:173-175 | every letter of random_string comes from its own rand(26) draw and lies in a-z |
| Akami.Nonce | lib/akami/wsse2.rb:161-163 | nonce is 40 characters long |
| WsseProperties.NonceIsHexDigest | lib/akami/wsse2.rb:161-163 | nonce is 40 lower-case hex digits, from which the SHA-1 digest of random_string + current_timestamp reads back |
| Akami.DigestPassword | lib/akami/wsse2.rb:156-159 | digest_password raises TypeError exactly when the password is not a String, and otherwise gives a String |
| WsseProperties.DigestIsChomped | lib/akami/wsse2.rb:156-159 | the digest is the Base64 text of SHA-1 over nonce + current_timestamp + password, without its final newline |
| HexEncoding.HexDigit | lib/akami/wsse2.rb:162 | a nibble renders as a lower-case hex digit |
| HexEncoding.DigitValue | lib/akami/wsse2.rb:162 | a character reads as a nibble exactly when it is a lower-case hex digit, and reading inverts rendering |
| HexEncoding.Hex | lib/akami/wsse2.rb:162 | hexdigest writes two characters per byte |
| HexEncoding.HexDigits | lib/akami/wsse2.rb:162 | hexdigest writes only lower-case hex digits |
| HexEncoding.Unhex | lib/akami/wsse2.rb:162 | reading hex back yields half as many bytes as characters |
| HexEncoding.UnhexHex | lib/akami/wsse2.rb:162 | reading back a hexdigest gives the digest |
| HexEncoding.HexInjective | lib/akami/wsse2.rb:162 | distinct digests never render to the same hex string |
| RubyHash.Blank | lib/akami/wsse2.rb:51 | nil, false, "" and {} are blank; a String starting with a non-whitespace character is not; a Hash is blank exactly when it is empty |
| RubyHash.Present | lib/akami/wsse2.rb:114-115 | a present value is truthy; a Hash is present exactly when it is not empty |
| RubyHash.Truthy | lib/akami/wsse2.rb:57-79 | every String and Hash is truthy, and a value that is not truthy is blank |
| RubyHash.ToS | lib/akami/wsse2.rb:116 | `to_s` of a String is the String itself, and it is empty exactly for nil and "" |
| RubyHash.Keys | lib/akami/wsse2.rb:89-142 | Hash#keys lists the keys one per entry, in insertion order |
| RubyHash.Find | lib/akami/wsse2.rb:114-116 | the lookup finds the first position holding the key, and finds none exactly when the key is missing |
| RubyHash.Get | lib/akami/wsse2.rb:114-116 | `h[k]` is nil for a missing key |
| RubyHash.GetFound | lib/akami/wsse2.rb:114-116 | `h[k]` for a present key is the value of an entry of h |
| RubyHash.GetAt | lib/akami/wsse2.rb:114-116 | in a hash with distinct keys, `h[k]` is the value stored at k's position |
| RubyHash.Store | lib/akami/wsse2.rb:114-116 | `h[k] = v` makes `h[k]` read v; an existing key keeps its place, a new key is appended; distinct keys stay distinct |
| RubyHash.StoreOther | lib/akami/wsse2.rb:114-116 | `h[k] = v` leaves every other key's value unchanged |
| RubyHash.Vivify | lib/akami/wsse2.rb:114-115 | `h[k] = {} unless h[k].present?` leaves a present value and otherwise makes `h[k]` an empty hash |
| RubyHash.VivifyOther | lib/akami/wsse2.rb:114-115 | ... and leaves every other key's value unchanged |
| RubyHash.MergePrefix | lib/akami/wsse2.rb:103-110 | storing the first n entries of another hash keeps keys distinct, and appends them when the keys are new |
| RubyHash.Merge | lib/akami/wsse2.rb:103-110 | `merge!` keeps keys distinct, and appends the other hash when its keys are new |
| RubyHash.MergeOther | lib/akami/wsse2.rb:116 | keys the other hash does not mention keep their value through `merge!` |
| RubyHash.MergeWins | lib/akami/wsse2.rb:116 | every entry of the other hash is in the result of `merge!` |
| RubyHash.MergeNew | lib/akami/wsse2.rb:140-142 | `merge!({ k => v })` for a new key appends the entry |
| RubyHash.Separator | lib/akami/wsse2.rb:158 | chomp removes a trailing "\r\n", "\n" or "\r", taking "\r\n" whole whenever the string ends with it, and nothing when the string ends in none of them |
| RubyHash.ChompBang | lib/akami/wsse2.rb:158 | chomp! is nil or a String; nil exactly when no separator ends the string; otherwise the string with the separator removed |
| RubyHash.ChompNewline | lib/akami/wsse2.rb:158 | chomp! on a line ending in one newline gives the line |

## Left out

- `to_xml` (lib/akami/wsse2.rb:81-83): XML serialisation happens in the Gyoku
  library, which is outside this model. The model stops at the assembled hash.
- SHA-1, Base64, `SecureRandom.uuid`, `rand(26)`, `Time.now` and `xmlschema`
  are foreign code, a clock or randomness. Each is a function-typed field of
  `Oracles`. Beyond that, the model knows only that SHA-1 returns 20 bytes,
  that `rand(26)` returns 0..25, and the line shape of Base64 text below.
- Time is a whole number of seconds from the clock oracle. Sub-second time and
  time zones are left to the `xmlschema` oracle.
- Expires: the intended value is 60 seconds after Created. The code reads the
  clock twice, so Expires is the second reading plus 60. The model follows the
  code (`TimestampContents`).
- `Base64.encode64` is an oracle whose results are constrained to one line ended
  by a single newline with no carriage return before it. That holds for the
  28 characters it writes for a 20-byte SHA-1 digest, the only input it gets
  here; `encode64("")` is `""`, but an empty digest never arises.
- Configuration values are nil, booleans or Strings. Other Ruby objects in
  `params`, and writers that are not in CONFIG_KEYS, are not modelled.
- Keys of `params` match CONFIG_KEYS only as Symbols, as `include?` does; a
  String key such as 'username' is ignored.
- `Blank` and `Present` model ActiveSupport's `Object#blank?` and `present?`.
  lib/akami/wsse2.rb requires only time, base64, gyoku, digest/sha1 and
  securerandom, so the code relies on ActiveSupport being loaded by its
  caller. Without it, `env_namespace.blank?` raises NoMethodError for any
  non-nil env_namespace, and `hash[:attributes!].present?` raises whenever
  use_signature? holds. The model does not capture those failures.
- `blank?` on Strings counts only the ASCII whitespace characters as blank.
  Unicode whitespace is not modelled.
- Nested hashes are values. Ruby's `hash[:attributes!]['wsse:Security']` aliases
  the inner hash object, and `merge!` updates it in place. The model
  reassigns the whole `hash` field to the same result instead; aliasing is not
  captured.
- The `attributes` accessor is declared but the builder never uses it (the
  `self.attributes.merge!` in build_timestamp is commented out). It stays nil.
- lib/akami.rb: it holds only two factory methods and has no logic of its own.
- `use_*?` return the stored value unchanged; the model reads them through
  Ruby truthiness (`Truthy`), which is how the `if`s use them.
