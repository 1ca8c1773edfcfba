/** Ruby values as far as the WS-Security header builder uses them: nil,
    true/false, Strings and insertion-ordered Hashes, with the Hash
    operations the builder calls (`h[k]`, `h[k] = v`, `merge!`),
    ActiveSupport's `blank?`/`present?`, `to_s` and `String#chomp!`. */
module RubyHash {

  /** A hash key: a String such as 'wsse:Security' or a Symbol such as :attributes!. */
  datatype Key = Name(s: string) | Sym(s: string)

  /** A Ruby object; a Hash keeps its entries in insertion order. */
  datatype Obj = Nil | Bool(b: bool) | Str(s: string) | Hash(entries: seq<(Key, Obj)>)

  type Entries = seq<(Key, Obj)>

  /** The objects that are not hashes: what a configuration option holds. */
  type Scalar = o: Obj | !o.Hash? witness Nil

  /** Hash#keys. */
  function Keys(es: Entries): (ks: seq<Key>)
    ensures |ks| == |es|
    ensures forall i :: 0 <= i < |es| ==> ks[i] == es[i].0
  {
    seq(|es|, i requires 0 <= i < |es| => es[i].0)
  }

  lemma KeysAppendAll(es: Entries, more: Entries)
    ensures Keys(es + more) == Keys(es) + Keys(more)
  {
  }

  /** A Ruby Hash never holds the same key twice. */
  predicate Unique(es: Entries) {
    forall i, j :: 0 <= i < j < |es| ==> es[i].0 != es[j].0
  }

  /** Every hash nested anywhere in o has unique keys. */
  predicate WellFormed(o: Obj)
    decreases o
  {
    match o
    case Hash(es) => Unique(es) && forall i :: 0 <= i < |es| ==> WellFormed(es[i].1)
    case _ => true
  }

  /** The position of key k in es at or after position from, or -1 when there is none. */
  function FindFrom(es: Entries, k: Key, from: nat): (i: int)
    requires from <= |es|
    ensures i == -1 || from <= i < |es|
    ensures 0 <= i ==> es[i].0 == k
    ensures forall j :: from <= j < |es| && (i < 0 || j < i) ==> es[j].0 != k
    decreases |es| - from
  {
    if from == |es| then -1
    else if es[from].0 == k then from
    else FindFrom(es, k, from + 1)
  }

  /** The position of key k in es, or -1 when k is missing. */
  function Find(es: Entries, k: Key): (i: int)
    ensures -1 <= i < |es|
    ensures 0 <= i ==> es[i].0 == k
    ensures forall j :: 0 <= j < |es| && (i < 0 || j < i) ==> es[j].0 != k
    ensures i < 0 <==> k !in Keys(es)
  {
    FindFrom(es, k, 0)
  }

  /** Find is the first position holding k: any i that is the first position is Find's. */
  lemma FindIs(es: Entries, k: Key, i: int)
    requires -1 <= i < |es|
    requires 0 <= i ==> es[i].0 == k
    requires forall j :: 0 <= j < |es| && (i < 0 || j < i) ==> es[j].0 != k
    ensures Find(es, k) == i
  {
  }

  /** h[k]: the value stored under k, or nil when k is missing. */
  function Get(es: Entries, k: Key): (v: Obj)
    ensures k !in Keys(es) ==> v == Nil
  {
    var i := Find(es, k);
    if i < 0 then Nil else es[i].1
  }

  /** h[k] is an entry of h whenever k is a key of h. */
  lemma GetFound(es: Entries, k: Key)
    requires k in Keys(es)
    ensures (k, Get(es, k)) in es
  {
    assert es[Find(es, k)] == (k, Get(es, k));
  }

  /** In a hash with distinct keys, h[k] is the value at k's position. */
  lemma GetAt(es: Entries, i: int)
    requires Unique(es) && 0 <= i < |es|
    ensures Get(es, es[i].0) == es[i].1
  {
    FindIs(es, es[i].0, i);
  }

  /** `o[k]` read through a chain of hashes; nil once a step is not a hash.
      Used to state properties, like Hash#dig. */
  function At(o: Obj, k: Key): Obj {
    if o.Hash? then Get(o.entries, k) else Nil
  }

  /** True when o is a hash holding key k. */
  predicate HasKey(o: Obj, k: Key) {
    o.Hash? && k in Keys(o.entries)
  }

  /** The keys of o when it is a hash, in insertion order. */
  function KeysOf(o: Obj): seq<Key> {
    if o.Hash? then Keys(o.entries) else []
  }

  /** h[k] = v: replaces the value of an existing key in place, else appends. */
  function Store(es: Entries, k: Key, v: Obj): (r: Entries)
    ensures Get(r, k) == v
    ensures k in Keys(es) ==> Keys(r) == Keys(es)
    ensures k !in Keys(es) ==> r == es + [(k, v)]
    ensures Unique(es) ==> Unique(r)
  {
    var i := Find(es, k);
    if i < 0 then
      FindIs(es + [(k, v)], k, |es|);
      es + [(k, v)]
    else
      FindIs(es[i := (k, v)], k, i);
      assert Keys(es[i := (k, v)]) == Keys(es);
      es[i := (k, v)]
  }

  /** h[k] = v leaves every other key as it was. */
  lemma StoreOther(es: Entries, k: Key, v: Obj, k': Key)
    requires k' != k
    ensures Get(Store(es, k, v), k') == Get(es, k')
  {
    var i := Find(es, k);
    if i < 0 {
      FindIs(es + [(k, v)], k', Find(es, k'));
    } else {
      FindIs(es[i := (k, v)], k', Find(es, k'));
    }
  }

  /** h[k] and h[k] = v on the first key of a hash. */
  lemma FirstEntry(k: Key, v: Obj, rest: Entries, w: Obj)
    ensures Get([(k, v)] + rest, k) == v
    ensures Store([(k, v)] + rest, k, w) == [(k, w)] + rest
  {
    FindIs([(k, v)] + rest, k, 0);
    assert ([(k, v)] + rest)[0 := (k, w)] == [(k, w)] + rest;
  }

  /** h[k] and h[k] = v on a hash of one entry. */
  lemma SingleEntry(k: Key, v: Obj, k': Key, w: Obj)
    ensures Get([(k, v)], k) == v && Store([(k, v)], k, w) == [(k, w)]
    ensures k' != k ==> Get([(k, v)], k') == Nil && Store([(k, v)], k', w) == [(k, v), (k', w)]
  {
    FindIs([(k, v)], k, 0);
    if k' != k {
      FindIs([(k, v)], k', -1);
    }
  }

  /** h[k] and h[k] = v on the second key of a hash of two entries. */
  lemma SecondEntry(k1: Key, v1: Obj, k2: Key, v2: Obj, w: Obj)
    requires k1 != k2
    ensures Get([(k1, v1), (k2, v2)], k2) == v2
    ensures Store([(k1, v1), (k2, v2)], k2, w) == [(k1, v1), (k2, w)]
  {
    FindIs([(k1, v1), (k2, v2)], k2, 1);
  }

  /** `h[k] = {} unless h[k].present?`: afterwards k holds its old value when that
      was present, and an empty hash otherwise. */
  function Vivify(es: Entries, k: Key): (r: Entries)
    ensures Get(r, k) == if Present(Get(es, k)) then Get(es, k) else Hash([])
    ensures Unique(es) ==> Unique(r)
  {
    if Present(Get(es, k)) then es else Store(es, k, Hash([]))
  }

  /** ... and no other key changes. */
  lemma VivifyOther(es: Entries, k: Key, k': Key)
    requires k' != k
    ensures Get(Vivify(es, k), k') == Get(es, k')
  {
    if !Present(Get(es, k)) {
      StoreOther(es, k, Hash([]), k');
    }
  }

  /** No key of other is a key of es already. */
  predicate Disjoint(es: Entries, other: Entries) {
    forall i :: 0 <= i < |other| ==> other[i].0 !in Keys(es)
  }

  /** The first n entries of other stored into es one after another. */
  function MergePrefix(es: Entries, other: Entries, n: nat): (r: Entries)
    requires n <= |other|
    ensures Unique(es) ==> Unique(r)
    ensures Disjoint(es, other) && Unique(other) ==> r == es + other[..n]
    decreases n
  {
    if n == 0 then es
    else
      var r := MergePrefix(es, other, n - 1);
      assert Disjoint(es, other) && Unique(other) ==> other[n - 1].0 !in Keys(r) by {
        if Disjoint(es, other) && Unique(other) {
          KeysAppendAll(es, other[..n - 1]);
        }
      }
      assert other[..n] == other[..n - 1] + [other[n - 1]];
      Store(r, other[n - 1].0, other[n - 1].1)
  }

  /** h.merge!(other): stores the entries of other one after another. */
  function Merge(es: Entries, other: Entries): (r: Entries)
    ensures Unique(es) ==> Unique(r)
    ensures Disjoint(es, other) && Unique(other) ==> r == es + other
  {
    assert other[..|other|] == other;
    MergePrefix(es, other, |other|)
  }

  /** Keys that other does not mention keep their value through Merge. */
  lemma MergeOther(es: Entries, other: Entries, k: Key)
    requires k !in Keys(other)
    ensures Get(Merge(es, other), k) == Get(es, k)
  {
    MergePrefixOther(es, other, |other|, k);
  }

  lemma {:induction false} MergePrefixOther(es: Entries, other: Entries, n: nat, k: Key)
    requires n <= |other| && k !in Keys(other)
    ensures Get(MergePrefix(es, other, n), k) == Get(es, k)
    decreases n
  {
    if n > 0 {
      assert other[n - 1].0 != k by {
        assert Keys(other)[n - 1] == other[n - 1].0;
      }
      StoreOther(MergePrefix(es, other, n - 1), other[n - 1].0, other[n - 1].1, k);
      MergePrefixOther(es, other, n - 1, k);
    }
  }

  /** Every entry of other, whose keys are distinct, ends up in the merged hash. */
  lemma MergeWins(es: Entries, other: Entries, i: nat)
    requires Unique(other) && i < |other|
    ensures Get(Merge(es, other), other[i].0) == other[i].1
  {
    MergePrefixWins(es, other, |other|, i);
  }

  lemma {:induction false} MergePrefixWins(es: Entries, other: Entries, n: nat, i: nat)
    requires Unique(other) && i < n <= |other|
    ensures Get(MergePrefix(es, other, n), other[i].0) == other[i].1
    decreases n
  {
    if i < n - 1 {
      StoreOther(MergePrefix(es, other, n - 1), other[n - 1].0, other[n - 1].1, other[i].0);
      MergePrefixWins(es, other, n - 1, i);
    }
  }

  /** h.merge!({ k => v }) for a key h does not hold appends the entry. */
  lemma MergeNew(es: Entries, x: (Key, Obj))
    requires x.0 !in Keys(es)
    ensures Merge(es, [x]) == es + [x]
  {
    assert Disjoint(es, [x]);
  }

  /** ActiveSupport's `blank?`: nil, false, an empty or all-whitespace String, an empty Hash. */
  predicate Blank(o: Obj)
    ensures o == Nil || o == Bool(false) || o == Str("") || o == Hash([]) ==> Blank(o)
    ensures o.Str? && |o.s| > 0 && !Whitespace(o.s[0]) ==> !Blank(o)
    ensures o.Hash? ==> (Blank(o) <==> o.entries == [])
  {
    match o
    case Nil => true
    case Bool(b) => !b
    case Str(s) => forall i :: 0 <= i < |s| ==> Whitespace(s[i])
    case Hash(es) => es == []
  }

  predicate Whitespace(c: char) {
    c == ' ' || c == '\t' || c == '\n' || c == '\U{B}' || c == '\U{C}' || c == '\r'
  }

  /** ActiveSupport's `present?`. */
  predicate Present(o: Obj)
    ensures Present(o) ==> Truthy(o)
    ensures o.Hash? ==> (Present(o) <==> o.entries != [])
  {
    !Blank(o)
  }

  /** Ruby truthiness: everything but nil and false. */
  predicate Truthy(o: Obj)
    ensures o.Str? || o.Hash? ==> Truthy(o)
    ensures !Truthy(o) ==> Blank(o)
  {
    !(o.Nil? || o == Bool(false))
  }

  /** `to_s`, as string interpolation uses it. */
  function ToS(o: Scalar): (r: string)
    ensures o.Str? ==> r == o.s
    ensures r == [] <==> o.Nil? || o == Str("")
  {
    match o
    case Nil => ""
    case Bool(b) => if b then "true" else "false"
    case Str(s) => s
  }

  /** The record separator `chomp` removes from the end of s ("" when none). */
  function Separator(s: string): (sep: string)
    ensures |sep| <= |s| && s[|s| - |sep|..] == sep
    ensures sep == "" || sep == "\n" || sep == "\r" || sep == "\r\n"
    ensures sep == "" <==> (s == [] || (s[|s| - 1] != '\n' && s[|s| - 1] != '\r'))
    ensures |s| >= 2 && s[|s| - 2] == '\r' && s[|s| - 1] == '\n' ==> sep == "\r\n"
  {
    if |s| >= 2 && s[|s| - 2] == '\r' && s[|s| - 1] == '\n' then
      assert s[|s| - 2..] == "\r\n";
      "\r\n"
    else if |s| >= 1 && s[|s| - 1] == '\n' then
      assert s[|s| - 1..] == "\n";
      "\n"
    else if |s| >= 1 && s[|s| - 1] == '\r' then
      assert s[|s| - 1..] == "\r";
      "\r"
    else ""
  }

  /** String#chomp!: the string without its trailing record separator, or
      nil when there was none to remove. */
  function ChompBang(s: string): (r: Scalar)
    ensures r.Nil? <==> (s == [] || (s[|s| - 1] != '\n' && s[|s| - 1] != '\r'))
    ensures r.Nil? || r.Str?
    ensures r.Str? ==> r.s + Separator(s) == s && Separator(s) != ""
  {
    var sep := Separator(s);
    if sep == "" then Nil
    else
      assert s[..|s| - |sep|] + s[|s| - |sep|..] == s;
      Str(s[..|s| - |sep|])
  }

  /** chomp! on a line ending in a single newline gives the line. */
  lemma ChompNewline(s: string)
    requires s == [] || s[|s| - 1] != '\r'
    ensures ChompBang(s + "\n") == Str(s)
  {
    var x := s + "\n";
    assert x[..|x| - 1] == s;
  }
}
