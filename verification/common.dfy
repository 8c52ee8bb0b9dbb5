/** Shared vocabulary of the model: failure-carrying results, the dynamically
    typed field values the document database stores, and the Python string
    operations the bot relies on (case mapping, stripping, substring tests,
    decimal rendering and code-point ordering). */
module Common {

  datatype Option<T> = None | Some(value: T)

  /** The Python exceptions the modelled code raises or catches. */
  datatype Failure =
    | TypeError
    | AttributeError
    | KeyError
    | ValueError
    | ZeroDivisionError
    | FileNotFoundError
    | RequestError
      /** Raised by a permission helper whose code is not part of the model. */
    | PermissionDenied

  datatype Result<T> = Ok(value: T) | Err(failure: Failure)

  /** What `json.loads` or `json.load` makes of a text: a decode error (a
      ValueError in Python), or the decoded value. */
  datatype Parsed = DecodeError | Json(value: Value)

  /** A field value as the database hands it back to Python. `Time` is a
      `datetime` (its calendar day in ISO form plus an opaque time of day);
      `ServerTimestamp` is the write-time sentinel, stored opaquely. */
  datatype Value =
    | Null
    | Bool(b: bool)
    | Int(i: int)
    | Str(s: string)
    | List(items: seq<Value>)
    | Obj(fields: map<string, Value>)
    | Time(day: string, clock: nat)
    | ServerTimestamp

  type Doc = map<string, Value>

  /** A dict key or set element must be hashable; lists and dicts are not. */
  predicate Hashable(v: Value)
  {
    !v.List? && !v.Obj?
  }

  /** The class of dict keys or set elements a value falls into: Python
      treats `True` as `1` and `False` as `0`, because they are equal and
      hash alike. */
  function KeyClass(v: Value): (k: Value)
    ensures !k.Bool?
    ensures Hashable(k) <==> Hashable(v)
    ensures !v.Bool? ==> k == v
  {
    if v.Bool? then Int(if v.b then 1 else 0) else v
  }

  /** `d.get(k, default)` */
  function Get(d: Doc, k: string, default: Value): (v: Value)
    ensures k in d ==> v == d[k]
    ensures k !in d ==> v == default
  {
    if k in d then d[k] else default
  }

  /** Python truthiness of a stored value. */
  predicate Truthy(v: Value)
  {
    match v
    case Null => false
    case Bool(b) => b
    case Int(i) => i != 0
    case Str(s) => s != ""
    case List(xs) => xs != []
    case Obj(m) => m != map[]
    case Time(_, _) => true
    case ServerTimestamp => true
  }

  /** Iterating a value and calling `.get` on every element, as in
      `for e in v: e.get(...)`: a list of dicts yields them in order; an empty
      string or empty dict yields nothing; anything else raises (a number or
      None is not iterable; a non-empty string or dict yields strings, which
      have no `.get`; a list element that is not a dict has no `.get`). */
  function IterDocs(v: Value): (r: Option<seq<Doc>>)
    ensures v.List? && (forall i :: 0 <= i < |v.items| ==> v.items[i].Obj?) ==>
              r.Some? && |r.value| == |v.items| &&
              forall i :: 0 <= i < |v.items| ==> r.value[i] == v.items[i].fields
    ensures v.List? && (exists i :: 0 <= i < |v.items| && !v.items[i].Obj?) ==> r.None?
    ensures !v.List? ==> (r.Some? <==> v == Str("") || v == Obj(map[]))
    ensures r.Some? && !v.List? ==> r.value == []
  {
    match v
    case List(xs) => DocsOf(xs)
    case Str(s) => if s == "" then Some([]) else None
    case Obj(m) => if m == map[] then Some([]) else None
    case _ => None
  }

  function DocsOf(xs: seq<Value>): (r: Option<seq<Doc>>)
    ensures (forall i :: 0 <= i < |xs| ==> xs[i].Obj?) ==>
              r.Some? && |r.value| == |xs| && forall i :: 0 <= i < |xs| ==> r.value[i] == xs[i].fields
    ensures (exists i :: 0 <= i < |xs| && !xs[i].Obj?) ==> r.None?
  {
    if |xs| == 0 then Some([])
    else if !xs[0].Obj? then None
    else
      match DocsOf(xs[1..])
      case None => assert !xs[1..][0].Obj? || exists i :: 0 <= i < |xs[1..]| && !xs[1..][i].Obj?; None
      case Some(rest) => Some([xs[0].fields] + rest)
  }

  // ---------------------------------------------------------------------------
  // Case mapping (ASCII letters only) and Python whitespace

  function UpperChar(c: char): char
  {
    if 'a' <= c <= 'z' then (c as int - 32) as char else c
  }

  function LowerChar(c: char): char
  {
    if 'A' <= c <= 'Z' then (c as int + 32) as char else c
  }

  /** `s.upper()` */
  function Upper(s: string): (r: string)
    ensures |r| == |s|
    ensures forall i :: 0 <= i < |s| ==> r[i] == UpperChar(s[i])
  {
    seq(|s|, i requires 0 <= i < |s| => UpperChar(s[i]))
  }

  /** `s.lower()` */
  function Lower(s: string): (r: string)
    ensures |r| == |s|
    ensures forall i :: 0 <= i < |s| ==> r[i] == LowerChar(s[i])
  {
    seq(|s|, i requires 0 <= i < |s| => LowerChar(s[i]))
  }

  /** The characters Python's `str.isspace` accepts. */
  predicate IsSpace(c: char)
  {
    c == ' ' || '\t' <= c <= '\r' || '\U{1C}' <= c <= '\U{1F}' || c == '\U{85}' ||
    c == '\U{A0}' || c == '\U{1680}' || '\U{2000}' <= c <= '\U{200A}' ||
    c == '\U{2028}' || c == '\U{2029}' || c == '\U{202F}' || c == '\U{205F}' ||
    c == '\U{3000}'
  }

  function StripLeft(s: string): (r: string)
    ensures |r| <= |s| && r == s[|s| - |r|..]
    ensures r == [] || !IsSpace(r[0])
    ensures forall i :: 0 <= i < |s| - |r| ==> IsSpace(s[i])
  {
    if |s| > 0 && IsSpace(s[0]) then StripLeft(s[1..]) else s
  }

  function StripRight(s: string): (r: string)
    ensures |r| <= |s| && r == s[..|r|]
    ensures r == [] || !IsSpace(r[|r| - 1])
    ensures forall i :: |r| <= i < |s| ==> IsSpace(s[i])
  {
    if |s| > 0 && IsSpace(s[|s| - 1]) then StripRight(s[..|s| - 1]) else s
  }

  /** `s.strip()`: the longest slice of `s` that neither starts nor ends with
      whitespace, obtained by dropping whitespace from both ends. */
  function Strip(s: string): (r: string)
    ensures |r| <= |StripLeft(s)| <= |s|
    ensures StripLeft(s) == s[|s| - |StripLeft(s)|..] && r == StripLeft(s)[..|r|]
    ensures r == [] || (!IsSpace(r[0]) && !IsSpace(r[|r| - 1]))
    ensures (forall i :: 0 <= i < |s| ==> !IsSpace(s[i])) ==> r == s
  {
    var l := StripLeft(s);
    var r := StripRight(l);
    NothingToStrip(s);
    r
  }

  /** A string without whitespace is its own stripped form. */
  lemma NothingToStrip(s: string)
    ensures (forall i :: 0 <= i < |s| ==> !IsSpace(s[i])) ==> StripLeft(s) == s && StripRight(s) == s
  {
  }

  // ---------------------------------------------------------------------------
  // Substrings and suffixes

  /** `sub in s` for strings */
  predicate IsSubstring(sub: string, s: string)
    decreases |s|
  {
    sub <= s || (|s| > 0 && IsSubstring(sub, s[1..]))
  }

  lemma {:induction false} SubstringOfConcat(a: string, sub: string, b: string)
    ensures IsSubstring(sub, a + (sub + b))
    decreases |a|
  {
    if |a| == 0 {
      assert a + (sub + b) == sub + b;
      assert sub <= sub + b;
    } else {
      assert (a + (sub + b))[1..] == a[1..] + (sub + b);
      SubstringOfConcat(a[1..], sub, b);
    }
  }

  /** `s.endswith(suffix)` */
  predicate EndsWith(s: string, suffix: string)
  {
    |suffix| <= |s| && s[|s| - |suffix|..] == suffix
  }

  /** `s.startswith(prefix)` */
  predicate StartsWith(s: string, prefix: string)
  {
    prefix <= s
  }

  /** `s[:k]` in Python, where a negative `k` counts from the end. */
  function SliceTo<T>(s: seq<T>, k: int): (r: seq<T>)
    ensures 0 <= k ==> |r| == (if k < |s| then k else |s|)
    ensures k < 0 ==> |r| == (if -k < |s| then |s| + k else 0)
    ensures r <= s
  {
    if 0 <= k then (if k < |s| then s[..k] else s)
    else if -k < |s| then s[..|s| + k] else []
  }

  /** `s[-k:]`, the last `k` elements (all of them when there are fewer). */
  function LastN<T>(s: seq<T>, k: nat): (r: seq<T>)
    ensures |r| == (if k < |s| then k else |s|)
    ensures r == s[|s| - |r|..]
  {
    if k < |s| then s[|s| - k..] else s
  }

  /** `"".join(parts)` */
  function Concat(parts: seq<string>): (r: string)
    ensures |parts| == 1 ==> r == parts[0]
  {
    if |parts| == 0 then "" else parts[0] + Concat(parts[1..])
  }

  lemma {:induction false} ConcatAppend(parts: seq<string>, last: string)
    ensures Concat(parts + [last]) == Concat(parts) + last
  {
    if |parts| == 0 {
      assert parts + [last] == [last];
    } else {
      assert (parts + [last])[1..] == parts[1..] + [last];
      ConcatAppend(parts[1..], last);
    }
  }

  /** Concatenation splits at any index. */
  lemma {:induction false} ConcatSplit(parts: seq<string>, k: nat)
    requires k <= |parts|
    ensures Concat(parts) == Concat(parts[..k]) + Concat(parts[k..])
    decreases k
  {
    if k == 0 {
      assert parts[k..] == parts;
    } else {
      ConcatSplit(parts[1..], k - 1);
      assert parts[..k][1..] == parts[1..][..k - 1];
      assert parts[1..][k - 1..] == parts[k..];
    }
  }

  lemma ConcatSplitTwice(parts: seq<string>, i: nat, j: nat)
    requires i <= j <= |parts|
    ensures Concat(parts) == Concat(parts[..i]) + (Concat(parts[i..j]) + Concat(parts[j..]))
  {
    ConcatSplit(parts[i..], j - i);
    SuffixSlices(parts, i, j);
    ConcatSplit(parts, i);
  }

  lemma SuffixSlices<T>(s: seq<T>, i: nat, j: nat)
    requires i <= j <= |s|
    ensures s[i..][..j - i] == s[i..j] && s[i..][j - i..] == s[j..]
  {
  }

  /** The concatenation around one chosen part. */
  lemma ConcatAround(parts: seq<string>, k: nat)
    requires k < |parts|
    ensures Concat(parts) == Concat(parts[..k]) + parts[k] + Concat(parts[k + 1..])
  {
    ConcatSplitTwice(parts, k, k + 1);
    assert parts[k..k + 1] == [parts[k]];
    AppendAssoc(Concat(parts[..k]), parts[k], Concat(parts[k + 1..]));
  }

  lemma AppendAssoc<T>(a: seq<T>, b: seq<T>, c: seq<T>)
    ensures a + (b + c) == a + b + c
  {
  }

  /** Any run of consecutive parts occurs, joined, in the concatenation. */
  lemma ConcatRangeIsSubstring(parts: seq<string>, i: nat, j: nat)
    requires i <= j <= |parts|
    ensures IsSubstring(Concat(parts[i..j]), Concat(parts))
  {
    ConcatSplitTwice(parts, i, j);
    SubstringOfConcat(Concat(parts[..i]), Concat(parts[i..j]), Concat(parts[j..]));
  }

  lemma ConcatThree(a: string, b: string, c: string)
    ensures Concat([a, b]) == a + b
    ensures Concat([a, b, c]) == a + b + c
  {
    assert [a, b][1..] == [b];
    assert [a, b, c][1..] == [b, c];
    assert [b, c][1..] == [c];
  }

  /** The concatenation ends with the concatenation of any suffix of parts. */
  lemma ConcatEndsWith(parts: seq<string>, k: nat)
    requires k <= |parts|
    ensures EndsWith(Concat(parts), Concat(parts[k..]))
  {
    ConcatSplit(parts, k);
  }

  /** `sep.join(parts)` */
  function Join(sep: string, parts: seq<string>): string
  {
    if |parts| == 0 then ""
    else if |parts| == 1 then parts[0]
    else parts[0] + sep + Join(sep, parts[1..])
  }

  // ---------------------------------------------------------------------------
  // Decimal rendering, as `str(n)` for integers

  function DigitChar(d: nat): char
    requires d < 10
  {
    ('0' as int + d) as char
  }

  predicate IsDigit(c: char)
  {
    '0' <= c <= '9'
  }

  function NatToString(n: nat): (r: string)
    ensures |r| > 0
    ensures forall i :: 0 <= i < |r| ==> IsDigit(r[i])
    ensures n > 0 ==> r[0] != '0'
    decreases n
  {
    if n < 10 then [DigitChar(n)] else NatToString(n / 10) + [DigitChar(n % 10)]
  }

  function IntToString(n: int): string
  {
    if n < 0 then "-" + NatToString(-n) else NatToString(n)
  }

  /** The decimal value of a digit string, `int(s)`. */
  function ParseNat(s: string): nat
    requires forall i :: 0 <= i < |s| ==> IsDigit(s[i])
  {
    if |s| == 0 then 0
    else
      assert IsDigit(s[|s| - 1]);
      10 * ParseNat(s[..|s| - 1]) + (s[|s| - 1] as int - '0' as int)
  }

  lemma {:induction false} ParseNatToString(n: nat)
    ensures ParseNat(NatToString(n)) == n
    decreases n
  {
    if n >= 10 {
      var s := NatToString(n);
      assert s[..|s| - 1] == NatToString(n / 10);
      ParseNatToString(n / 10);
    }
  }

  /** Distinct numbers render as distinct strings, so numbered document ids
      never collide. */
  lemma NatToStringInjective(a: nat, b: nat)
    ensures NatToString(a) == NatToString(b) <==> a == b
  {
    if NatToString(a) == NatToString(b) {
      ParseNatToString(a);
      ParseNatToString(b);
    }
  }

  // ---------------------------------------------------------------------------
  // Code-point order on strings (Python's `<`, and the database's key order)

  predicate StrLt(a: string, b: string)
    decreases |a|
  {
    if |a| == 0 then |b| > 0
    else |b| > 0 && (a[0] < b[0] || (a[0] == b[0] && StrLt(a[1..], b[1..])))
  }

  predicate StrLe(a: string, b: string)
  {
    a == b || StrLt(a, b)
  }

  lemma {:induction false} StrLtIrreflexive(a: string)
    ensures !StrLt(a, a)
    decreases |a|
  {
    if |a| > 0 {
      StrLtIrreflexive(a[1..]);
    }
  }

  lemma {:induction false} StrLtTransitive(a: string, b: string, c: string)
    requires StrLt(a, b) && StrLt(b, c)
    ensures StrLt(a, c)
    decreases |a|
  {
    if |a| > 0 && a[0] == b[0] && b[0] == c[0] {
      StrLtTransitive(a[1..], b[1..], c[1..]);
    }
  }

  lemma {:induction false} StrLtTrichotomy(a: string, b: string)
    ensures a == b || StrLt(a, b) || StrLt(b, a)
    decreases |a|
  {
    if |a| > 0 && |b| > 0 && a[0] == b[0] {
      StrLtTrichotomy(a[1..], b[1..]);
      if a[1..] == b[1..] {
        assert a == [a[0]] + a[1..] && b == [b[0]] + b[1..];
      }
    }
  }

  lemma StrLtAsymmetric(a: string, b: string)
    requires StrLt(a, b)
    ensures !StrLt(b, a) && a != b
  {
    if StrLt(b, a) {
      StrLtTransitive(a, b, a);
      StrLtIrreflexive(a);
    }
    if a == b {
      StrLtIrreflexive(a);
    }
  }
}
