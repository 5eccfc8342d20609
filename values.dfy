/*
 * The Python values the client passes around: JSON data plus the leaves that
 * never reach the wire as they are (the `undefined` sentinel, datetimes and the
 * template markers), and the few Python built-ins the codec relies on
 * (subscripting, item assignment, truthiness, `str(n)`, `int(s)`, `s.split('.')`,
 * `'.'.join(...)`).
 */
module Values {

  datatype Option<+T> = None | Some(value: T)

  /** The Python exception classes the modelled code can raise. */
  datatype PyError = KeyError | TypeError | IndexError | ValueError | AssertionError | AttributeError

  /** A value, or the exception that was raised instead. */
  datatype Result<+T> = Ok(value: T) | Err(error: PyError) {
    predicate IsFailure() { Err? }
    function PropagateFailure<U>(): Result<U> requires Err? { Err(error) }
    function Extract(): T requires Ok? { value }
  }

  /** The three `SingletonMark`s of the client: `m_page`, `m_cursor`, `m_none`.
      A `Mark` value is the singleton itself, so `x is m_page` is `x == Mark(PageMark)`. */
  datatype Marker = PageMark | CursorMark | OmitMark

  /** A `datetime.datetime`; its contents are opaque to the codec. */
  datatype Instant = Instant(micros: int)

  datatype Value =
    | Null
    | Bool(b: bool)
    | Int(i: int)
    | Str(s: string)
    | List(items: seq<Value>)
    | Tuple(items: seq<Value>)
    | Dict(entries: seq<Entry>)
    | Undefined                // the `undefined` sentinel (`_JsUndefined`)
    | Date(at: Instant)
    | Mark(marker: Marker)

  /** One key/value pair of a `dict`, in insertion order. */
  datatype Entry = Entry(key: string, val: Value)

  /** A subscript: `node['name']` or `node[3]`. */
  datatype Key = Name(name: string) | Index(index: int)

  function KeysOf(es: seq<Entry>): (ks: seq<string>)
    ensures |ks| == |es| && forall i :: 0 <= i < |es| ==> ks[i] == es[i].key
  {
    seq(|es|, i requires 0 <= i < |es| => es[i].key)
  }

  /** A Python `dict` never holds a key twice. */
  predicate DistinctKeys(es: seq<Entry>) {
    forall i, j :: 0 <= i < j < |es| ==> es[i].key != es[j].key
  }

  /** `d[k]` as an optional value. */
  function Lookup(es: seq<Entry>, k: string): (r: Option<Value>)
    ensures r.Some? <==> k in KeysOf(es)
  {
    if es == [] then None
    else if es[0].key == k then Some(es[0].val)
    else Lookup(es[1..], k)
  }

  /** `d.get(k)`: None when the key is absent. */
  function DictGet(es: seq<Entry>, k: string): Value {
    match Lookup(es, k)
    case Some(v) => v
    case None => Null
  }

  /** `d[k] = v`: an existing key keeps its position, a new key goes last. */
  function Store(es: seq<Entry>, k: string, v: Value): (r: seq<Entry>)
    ensures Lookup(r, k) == Some(v)
  {
    if es == [] then [Entry(k, v)]
    else if es[0].key == k then [Entry(k, v)] + es[1..]
    else [es[0]] + Store(es[1..], k, v)
  }

  /** `d[k] = v` changes no other key's value. */
  lemma {:induction false} StoreOthers(es: seq<Entry>, k: string, v: Value, n: string)
    requires n != k
    ensures Lookup(Store(es, k, v), n) == Lookup(es, n)
  {
    if es != [] && es[0].key != k {
      StoreOthers(es[1..], k, v, n);
    }
  }

  lemma KeysCons(e: Entry, es: seq<Entry>)
    ensures KeysOf([e] + es) == [e.key] + KeysOf(es)
  {
  }

  /** `d[k] = v` for a key already present keeps the keys where they were. */
  lemma {:induction false} StoreKeys(es: seq<Entry>, k: string, v: Value)
    requires k in KeysOf(es)
    ensures KeysOf(Store(es, k, v)) == KeysOf(es)
  {
    KeysCons(es[0], es[1..]);
    assert [es[0]] + es[1..] == es;
    if es[0].key != k {
      StoreKeys(es[1..], k, v);
      KeysCons(es[0], Store(es[1..], k, v));
    } else {
      KeysCons(Entry(k, v), es[1..]);
    }
  }

  lemma {:induction false} LookupAt(es: seq<Entry>, j: nat)
    requires DistinctKeys(es) && j < |es|
    ensures Lookup(es, es[j].key) == Some(es[j].val)
  {
    if j > 0 {
      LookupAt(es[1..], j - 1);
    }
  }

  lemma DistinctTail(es: seq<Entry>)
    requires DistinctKeys(es) && es != []
    ensures DistinctKeys(es[1..])
  {
    forall a, b | 0 <= a < b < |es| - 1 ensures es[1..][a].key != es[1..][b].key {
      assert es[1..][a] == es[a + 1] && es[1..][b] == es[b + 1];
    }
  }

  lemma {:induction false} StoreAt(es: seq<Entry>, j: nat, v: Value)
    requires DistinctKeys(es) && j < |es|
    ensures Store(es, es[j].key, v) == es[j := Entry(es[j].key, v)]
  {
    if j > 0 {
      assert es[0].key != es[j].key && es[1..][j - 1] == es[j];
      DistinctTail(es);
      StoreAt(es[1..], j - 1, v);
      StoreAtStep(es, j, v);
    } else {
      assert es[0 := Entry(es[0].key, v)] == [Entry(es[0].key, v)] + es[1..];
    }
  }

  /** Past a first entry under another key, assigning into the rest is assigning into the whole. */
  lemma StoreAtStep(es: seq<Entry>, j: nat, v: Value)
    requires 0 < j < |es| && es[0].key != es[j].key
    requires Store(es[1..], es[j].key, v) == es[1..][j - 1 := Entry(es[j].key, v)]
    ensures Store(es, es[j].key, v) == es[j := Entry(es[j].key, v)]
  {
    var k := es[j].key;
    assert Store(es, k, v) == [es[0]] + Store(es[1..], k, v);
    ConsUpdate(es[0], es[1..], j - 1, Entry(k, v));
    assert [es[0]] + es[1..] == es;
  }

  lemma ConsUpdate(e: Entry, rest: seq<Entry>, j: nat, x: Entry)
    requires j < |rest|
    ensures [e] + rest[j := x] == ([e] + rest)[j + 1 := x]
  {
  }

  lemma {:induction false} StoreNew(es: seq<Entry>, k: string, v: Value)
    requires k !in KeysOf(es)
    ensures Store(es, k, v) == es + [Entry(k, v)]
  {
    if es != [] {
      KeysCons(es[0], es[1..]);
      assert [es[0]] + es[1..] == es;
      StoreNew(es[1..], k, v);
      assert [es[0]] + (es[1..] + [Entry(k, v)]) == es + [Entry(k, v)];
    }
  }

  /** After `d[k] = v` every entry was already there or is the new pair. */
  lemma {:induction false} StoreMembers(es: seq<Entry>, k: string, v: Value)
    ensures forall e :: e in Store(es, k, v) ==> e in es || e == Entry(k, v)
  {
    if es != [] && es[0].key != k {
      StoreMembers(es[1..], k, v);
    }
  }

  /** Storing into a dict keeps its keys distinct. */
  lemma {:induction false} StoreDistinct(es: seq<Entry>, k: string, v: Value)
    requires DistinctKeys(es)
    ensures DistinctKeys(Store(es, k, v))
  {
    var j := 0;
    while j < |es| && es[j].key != k
      invariant j <= |es| && forall a :: 0 <= a < j ==> es[a].key != k
    {
      j := j + 1;
    }
    if j < |es| {
      StoreAt(es, j, v);
      UpdateDistinct(es, j, v);
    } else {
      assert k !in KeysOf(es);
      StoreNew(es, k, v);
      AppendDistinct(es, Entry(k, v));
    }
  }

  lemma UpdateDistinct(es: seq<Entry>, j: nat, v: Value)
    requires DistinctKeys(es) && j < |es|
    ensures DistinctKeys(es[j := Entry(es[j].key, v)])
  {
    var r := es[j := Entry(es[j].key, v)];
    assert forall a :: 0 <= a < |r| ==> r[a].key == es[a].key;
  }

  lemma AppendDistinct(es: seq<Entry>, e: Entry)
    requires DistinctKeys(es) && e.key !in KeysOf(es)
    ensures DistinctKeys(es + [e])
  {
    var r := es + [e];
    forall a, b | 0 <= a < b < |r| ensures r[a].key != r[b].key {
      if b == |es| { assert r[a] == es[a] && KeysOf(es)[a] == es[a].key; }
    }
  }

  /** Python's `bool(v)`. The sentinel, datetimes and marks have no `__bool__`. */
  predicate Truthy(v: Value) {
    match v
    case Null => false
    case Bool(b) => b
    case Int(i) => i != 0
    case Str(s) => s != []
    case List(xs) => xs != []
    case Tuple(xs) => xs != []
    case Dict(es) => es != []
    case _ => true
  }

  /** Whether `hash(v)` succeeds: lists and dicts are unhashable, tuples when a member is. */
  predicate Hashable(v: Value)
    decreases v
  {
    match v
    case List(_) => false
    case Dict(_) => false
    case Tuple(xs) => forall i :: 0 <= i < |xs| ==> Hashable(xs[i])
    case _ => true
  }

  /** The position `i` denotes in a sequence of length `n`, negative indices counting from the end. */
  function Position(i: int, n: nat): (p: Option<nat>)
    ensures p.Some? <==> -(n as int) <= i < n
    ensures p.Some? ==> p.value < n && (p.value == i || p.value == i + n)
  {
    if 0 <= i < n then Some(i)
    else if -(n as int) <= i < 0 then Some(i + n)
    else None
  }

  /** `v[k]` */
  function Subscript(v: Value, k: Key): (r: Result<Value>)
    ensures r.Ok? && k.Name? ==> v.Dict? && Lookup(v.entries, k.name) == Some(r.value)
    ensures r.Ok? && k.Index? ==> v.List? || v.Tuple? || v.Str?
    ensures r.Ok? && k.Index? && !v.Str? ==> Position(k.index, |v.items|).Some? && r.value == v.items[Position(k.index, |v.items|).value]
    ensures k.Name? ==> (r.Ok? <==> v.Dict? && Lookup(v.entries, k.name).Some?)
    ensures (v.List? || v.Tuple?) && k.Index? ==> (r.Ok? <==> Position(k.index, |v.items|).Some?)
    ensures v.Str? && k.Index? ==> (r.Ok? <==> Position(k.index, |v.s|).Some?)
    ensures r.Ok? && v.Str? ==> r.value == Str([v.s[Position(k.index, |v.s|).value]])
    ensures r.Err? ==> r.error == (if v.Dict? then KeyError else if (v.List? || v.Tuple? || v.Str?) && k.Index? then IndexError else TypeError)
  {
    match v
    case Dict(es) =>
      (match k
       case Name(s) => (match Lookup(es, s) case Some(x) => Ok(x) case None => Err(KeyError))
       case Index(_) => Err(KeyError))
    case List(xs) =>
      (match k
       case Index(i) => (match Position(i, |xs|) case Some(p) => Ok(xs[p]) case None => Err(IndexError))
       case Name(_) => Err(TypeError))
    case Tuple(xs) =>
      (match k
       case Index(i) => (match Position(i, |xs|) case Some(p) => Ok(xs[p]) case None => Err(IndexError))
       case Name(_) => Err(TypeError))
    case Str(s) =>
      (match k
       case Index(i) => (match Position(i, |s|) case Some(p) => Ok(Str([s[p]])) case None => Err(IndexError))
       case Name(_) => Err(TypeError))
    case _ => Err(TypeError)
  }

  /** `v[k] = x`, for a slot that `v[k]` has just read. Tuples and strings are immutable. */
  function Assign(v: Value, k: Key, x: Value): (r: Result<Value>)
    requires Subscript(v, k).Ok?
    ensures r.Ok? <==> v.Dict? || v.List?
    ensures r.Ok? ==> Subscript(r.value, k) == Ok(x)
    ensures r.Ok? && v.List? ==>
      (r.value.List? && |r.value.items| == |v.items| &&
       forall j :: 0 <= j < |v.items| && j != Position(k.index, |v.items|).value ==> r.value.items[j] == v.items[j])
    ensures r.Ok? && v.Dict? ==>
      (r.value.Dict? && KeysOf(r.value.entries) == KeysOf(v.entries) &&
       forall n :: n != k.name ==> Lookup(r.value.entries, n) == Lookup(v.entries, n))
  {
    match v
    case Dict(es) =>
      StoreKeys(es, k.name, x);
      assert forall n :: n != k.name ==> Lookup(Store(es, k.name, x), n) == Lookup(es, n) by {
        forall n | n != k.name ensures Lookup(Store(es, k.name, x), n) == Lookup(es, n) {
          StoreOthers(es, k.name, x, n);
        }
      }
      Ok(Dict(Store(es, k.name, x)))
    case List(xs) => Ok(List(xs[Position(k.index, |xs|).value := x]))
    case _ => Err(TypeError)
  }

  predicate IsDigit(c: char) { '0' <= c <= '9' }

  function DigitChar(d: nat): (c: char)
    requires d < 10
    ensures IsDigit(c) && c as int - '0' as int == d
  {
    (('0' as int) + d) as char
  }

  /** `str(n)` for a natural number. */
  function DecimalString(n: nat): (s: string)
    ensures s != [] && forall i :: 0 <= i < |s| ==> IsDigit(s[i])
  {
    if n < 10 then [DigitChar(n)] else DecimalString(n / 10) + [DigitChar(n % 10)]
  }

  function DigitValue(c: char): nat
    requires IsDigit(c)
  {
    c as int - '0' as int
  }

  function DigitsValue(s: string): nat
    requires forall i :: 0 <= i < |s| ==> IsDigit(s[i])
  {
    if s == [] then 0 else DigitsValue(s[..|s| - 1]) * 10 + DigitValue(s[|s| - 1])
  }

  /** `int(s)` on an optional sign followed by decimal digits; anything else is a ValueError.
      (Surrounding whitespace, `_` separators and non-ASCII digits are not modelled.) */
  function ParseInt(s: string): Option<int> {
    var sign := if s != [] && (s[0] == '-' || s[0] == '+') then 1 else 0;
    var digits := s[sign..];
    if digits != [] && forall i :: 0 <= i < |digits| ==> IsDigit(digits[i]) then
      var n: int := DigitsValue(digits);
      Some(if sign == 1 && s[0] == '-' then -n else n)
    else None
  }

  /** `int(str(n)) == n`: a list index printed into a path reads back as itself. */
  lemma {:induction false} ParseDecimal(n: nat)
    ensures ParseInt(DecimalString(n)) == Some(n)
  {
    DigitsOfDecimal(n);
  }

  lemma {:induction false} DigitsOfDecimal(n: nat)
    ensures DigitsValue(DecimalString(n)) == n
  {
    var s := DecimalString(n);
    if n >= 10 {
      DigitsOfDecimal(n / 10);
      assert s[..|s| - 1] == DecimalString(n / 10);
    }
  }

  lemma DecimalInjective(m: nat, n: nat)
    requires DecimalString(m) == DecimalString(n)
    ensures m == n
  {
    ParseDecimal(m);
    ParseDecimal(n);
  }

  /** `'.'.join(segs)` */
  function JoinPath(segs: seq<string>): string {
    if segs == [] then ""
    else if |segs| == 1 then segs[0]
    else segs[0] + "." + JoinPath(segs[1..])
  }

  /** `s.split('.')` */
  function SplitDots(s: string): (r: seq<string>)
    ensures r != []
  {
    if s == [] then [""]
    else if s[0] == '.' then [""] + SplitDots(s[1..])
    else var rest := SplitDots(s[1..]); [[s[0]] + rest[0]] + rest[1..]
  }

  predicate DotFree(s: string) { '.' !in s }

  lemma {:induction false} SplitWord(a: string, b: string)
    requires DotFree(a)
    ensures SplitDots(a + b) == (var r := SplitDots(b); [a + r[0]] + r[1..])
  {
    var r := SplitDots(b);
    if a == [] {
      assert a + b == b;
      assert a + r[0] == r[0];
      assert r == [r[0]] + r[1..];
    } else {
      assert a[0] != '.' by { assert a[0] in a; }
      assert (a + b)[0] == a[0];
      assert (a + b)[1..] == a[1..] + b;
      SplitWord(a[1..], b);
      assert [a[0]] + (a[1..] + r[0]) == a + r[0];
    }
  }

  /** Splitting a joined path gives back its segments when none of them holds a dot. */
  lemma {:induction false} SplitJoin(segs: seq<string>)
    requires segs != [] && forall i :: 0 <= i < |segs| ==> DotFree(segs[i])
    ensures SplitDots(JoinPath(segs)) == segs
  {
    if |segs| == 1 {
      SplitWord(segs[0], "");
      assert segs[0] + "" == segs[0];
    } else {
      SplitJoin(segs[1..]);
      var tail := "." + JoinPath(segs[1..]);
      assert JoinPath(segs) == segs[0] + tail;
      SplitWord(segs[0], tail);
      assert tail[0] == '.' && tail[1..] == JoinPath(segs[1..]);
      assert SplitDots(tail) == [""] + segs[1..];
      assert segs[0] + "" == segs[0];
      assert segs == [segs[0]] + segs[1..];
    }
  }

  lemma JoinInjective(p: seq<string>, q: seq<string>)
    requires p != [] && forall i :: 0 <= i < |p| ==> DotFree(p[i])
    requires q != [] && forall i :: 0 <= i < |q| ==> DotFree(q[i])
    requires JoinPath(p) == JoinPath(q)
    ensures p == q
  {
    SplitJoin(p);
    SplitJoin(q);
  }
}
