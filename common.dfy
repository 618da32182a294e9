/** Vocabulary shared by the whole model: the ledger row, optional values, the
    JavaScript string methods the dashboard relies on (on ASCII letters), the
    insertion-ordered map behind `Map` and plain-object accumulators, sums,
    filters and the stable sort behind `Array.prototype.sort`. */
module Common {

  datatype Option<+T> = None | Some(value: T)

  /** What a database query hands back: an error, or `data`, which may be null. */
  datatype DbResult<+T> = DbError | DbOk(data: Option<T>)

  /** The `type` column of a transactions row. */
  datatype TxKind = Buy | Sell | Dividend

  /** One row of the transactions table; `date` is a day number. */
  datatype Tx = Tx(portfolio: string, ticker: string, kind: TxKind, date: int, qty: real, total: real)

  /** The calendar month of a local date, 0 for January (`getMonth()`). */
  type Month = m: int | 0 <= m < 12

  /** A transactions row as the dashboard charts read it: `stamp` is the instant
      of its date (`getTime()`), `year` and `month` its local calendar fields, and
      `total` is `Number(t.total)`, None when that is NaN (a missing or
      non-numeric total; a null total is `Number(null)`, which is 0). */
  datatype ChartTx = ChartTx(ticker: string, kind: TxKind, stamp: int, year: nat, month: Month, total: Option<real>)

  // ---------------------------------------------------------------- characters

  predicate IsDigit(c: char) { '0' <= c <= '9' }

  predicate IsUpper(c: char) { 'A' <= c <= 'Z' }

  function ToUpperChar(c: char): char
  {
    if 'a' <= c <= 'z' then (c as int - 32) as char else c
  }

  function ToLowerChar(c: char): char
  {
    if 'A' <= c <= 'Z' then (c as int + 32) as char else c
  }

  /** The characters `String.prototype.trim` removes: the white space
      characters (tab, vertical tab, form feed, space, no-break space, the
      byte-order mark and the space separators of category Zs) and the line
      terminators. */
  predicate IsSpace(c: char)
  {
    || c == ' ' || c == '\t' || c == '\n' || c == '\r'
    || c as int in {11, 12, 0xA0, 0x1680, 0x2028, 0x2029, 0x202F, 0x205F, 0x3000, 0xFEFF}
    || 0x2000 <= c as int <= 0x200A
  }

  // ---------------------------------------------------------------- strings

  /** `toUpperCase` on ASCII letters. */
  function Upper(s: string): string
  {
    seq(|s|, i requires 0 <= i < |s| => ToUpperChar(s[i]))
  }

  /** `toLowerCase` on ASCII letters. */
  function Lower(s: string): string
  {
    seq(|s|, i requires 0 <= i < |s| => ToLowerChar(s[i]))
  }

  predicate StartsWith(s: string, p: string)
  {
    |p| <= |s| && s[..|p|] == p
  }

  predicate EndsWith(s: string, p: string)
  {
    |p| <= |s| && s[|s| - |p|..] == p
  }

  predicate OccursAt(s: string, p: string, j: int)
  {
    0 <= j && j + |p| <= |s| && s[j..j + |p|] == p
  }

  /** The first occurrence of `p` in `s` at or after `i`. */
  function IndexFrom(s: string, p: string, i: nat): (r: Option<nat>)
    requires i <= |s|
    decreases |s| - i
    ensures r.Some? ==> i <= r.value && OccursAt(s, p, r.value)
    ensures r.Some? ==> forall j :: i <= j < r.value ==> !OccursAt(s, p, j)
    ensures r.None? ==> forall j :: i <= j ==> !OccursAt(s, p, j)
  {
    if i + |p| > |s| then None
    else if s[i..i + |p|] == p then Some(i)
    else IndexFrom(s, p, i + 1)
  }

  /** `s.indexOf(p)`, with `None` for -1. */
  function IndexOf(s: string, p: string): Option<nat>
  {
    IndexFrom(s, p, 0)
  }

  /** The first place `p` occurs is what `indexOf` finds. */
  lemma FirstOccurrence(s: string, p: string, k: nat)
    requires OccursAt(s, p, k)
    requires forall j :: 0 <= j < k ==> !OccursAt(s, p, j)
    ensures IndexOf(s, p) == Some(k)
  {
    assert IndexOf(s, p).Some?;
  }

  /** `s.includes(p)`. */
  predicate Contains(s: string, p: string)
  {
    IndexOf(s, p).Some?
  }

  /** `s.replace(p, rep)` with a string pattern: only the first occurrence. */
  function ReplaceFirst(s: string, p: string, rep: string): string
  {
    match IndexOf(s, p)
    case None => s
    case Some(i) => s[..i] + rep + s[i + |p|..]
  }

  function TrimStart(s: string): string
  {
    if s != [] && IsSpace(s[0]) then TrimStart(s[1..]) else s
  }

  function TrimEnd(s: string): string
  {
    if s != [] && IsSpace(s[|s| - 1]) then TrimEnd(s[..|s| - 1]) else s
  }

  /** `s.trim()`. */
  function Trim(s: string): string
  {
    TrimEnd(TrimStart(s))
  }

  /** `trimStart` leaves nothing exactly when the text is all white space, and
      otherwise leaves text that starts with a character it keeps. */
  lemma {:induction false} TrimStartBlank(s: string)
    ensures TrimStart(s) == [] <==> forall i :: 0 <= i < |s| ==> IsSpace(s[i])
    ensures TrimStart(s) != [] ==> !IsSpace(TrimStart(s)[0])
  {
    if s != [] && IsSpace(s[0]) {
      TrimStartBlank(s[1..]);
      assert forall i :: 1 <= i < |s| ==> s[i] == s[1..][i - 1];
    }
  }

  /** `trimEnd` cannot empty text whose first character is kept. */
  lemma {:induction false} TrimEndKeepsFirst(s: string)
    requires s != [] && !IsSpace(s[0])
    ensures TrimEnd(s) != []
  {
    if IsSpace(s[|s| - 1]) {
      TrimEndKeepsFirst(s[..|s| - 1]);
    }
  }

  /** `s.trim()` is empty exactly when `s` is all white space. */
  lemma TrimBlank(s: string)
    ensures Trim(s) == [] <==> forall i :: 0 <= i < |s| ==> IsSpace(s[i])
  {
    TrimStartBlank(s);
    if TrimStart(s) != [] {
      TrimEndKeepsFirst(TrimStart(s));
    }
  }

  /** The position of the first `c` in `s`. */
  function FirstIndex(s: string, c: char): (i: nat)
    requires c in s
    ensures i < |s| && s[i] == c && c !in s[..i]
  {
    if s[0] == c then 0
    else
      assert s == [s[0]] + s[1..];
      var j := FirstIndex(s[1..], c);
      assert s[..j + 1] == [s[0]] + s[1..][..j];
      j + 1
  }

  /** `s.split(sep)` for a one-character separator. */
  function Split(s: string, sep: char): (r: seq<string>)
    decreases |s|
    ensures |r| >= 1
    ensures forall k :: 0 <= k < |r| ==> sep !in r[k]
  {
    if sep !in s then [s]
    else
      var i := FirstIndex(s, sep);
      [s[..i]] + Split(s[i + 1..], sep)
  }

  /** `parts.join(sep)`. */
  function Join(parts: seq<string>, sep: char): string
  {
    if parts == [] then ""
    else if |parts| == 1 then parts[0]
    else parts[0] + [sep] + Join(parts[1..], sep)
  }

  /** Joining the parts of a split with its separator gives the string back. */
  lemma {:induction false} SplitJoin(s: string, sep: char)
    decreases |s|
    ensures Join(Split(s, sep), sep) == s
  {
    if sep in s {
      var i := FirstIndex(s, sep);
      var parts, rest := Split(s, sep), Split(s[i + 1..], sep);
      assert parts == [s[..i]] + rest;
      assert parts[1..] == rest;
      SplitJoin(s[i + 1..], sep);
      assert Join(parts, sep) == s[..i] + [sep] + s[i + 1..];
      assert s == s[..i] + [sep] + s[i + 1..];
    }
  }

  /** `n.toString()` for a natural number. */
  function NatToString(n: nat): string
  {
    if n < 10 then [(48 + n) as char] else NatToString(n / 10) + [(48 + n % 10) as char]
  }

  /** The number a string of decimal digits spells. */
  function DigitsValue(s: string): int
  {
    if s == [] then 0 else DigitsValue(s[..|s| - 1]) * 10 + (s[|s| - 1] as int - 48)
  }

  /** `toString` writes at least one digit and nothing else, and reading the
      digits back gives the number. */
  lemma {:induction false} NatToStringRoundTrip(n: nat)
    ensures |NatToString(n)| >= 1
    ensures forall i :: 0 <= i < |NatToString(n)| ==> IsDigit(NatToString(n)[i])
    ensures DigitsValue(NatToString(n)) == n
  {
    var d := [(48 + n % 10) as char];
    if n < 10 {
      assert d[..0] == [];
    } else {
      NatToStringRoundTrip(n / 10);
      var a := NatToString(n / 10);
      assert (a + d)[..|a|] == a;
    }
  }

  /** Two numbers written out are the same text only when they are equal. */
  lemma NatToStringInjective(a: nat, b: nat)
    ensures NatToString(a) == NatToString(b) <==> a == b
  {
    NatToStringRoundTrip(a);
    NatToStringRoundTrip(b);
  }

  function Digit(d: nat): char
    requires d < 10
  {
    (48 + d) as char
  }

  /** `String(n).padStart(2, '0')` for a number below 100. */
  function Pad2(n: nat): (r: string)
    requires n < 100
    ensures |r| == 2
    ensures (r[0] as int - 48) * 10 + (r[1] as int - 48) == n
    ensures forall i :: 0 <= i < 2 ==> IsDigit(r[i])
  {
    [Digit(n / 10), Digit(n % 10)]
  }

  /** The label `MM/YYYY` of a calendar month: the month (0 for January)
      plus one, zero-padded to two digits, a slash and the year. */
  function MonthYear(year: nat, month: Month): (r: string)
    ensures |r| >= 4 && r[2] == '/'
    ensures r[..2] == Pad2(month + 1) && r[3..] == NatToString(year)
  {
    Pad2(month + 1) + "/" + NatToString(year)
  }

  /** Two months get the same label exactly when they are the same month. */
  lemma MonthYearInjective(y1: nat, m1: Month, y2: nat, m2: Month)
    ensures MonthYear(y1, m1) == MonthYear(y2, m2) <==> y1 == y2 && m1 == m2
  {
    NatToStringInjective(y1, y2);
    if MonthYear(y1, m1) == MonthYear(y2, m2) {
      assert Pad2(m1 + 1) == Pad2(m2 + 1);
    }
  }

  /** Splitting at the first occurrence of a separator is unambiguous. */
  lemma SplitAtSeparator(x: string, y: string, u: string, v: string, sep: char)
    requires sep !in x && sep !in u
    requires x + [sep] + y == u + [sep] + v
    ensures x == u && y == v
  {
    var w := x + [sep] + y;
    assert w[|x|] == sep && (u + [sep] + v)[|u|] == sep;
    assert x == w[..|x|] && u == w[..|u|];
    assert y == w[|x| + 1..] && v == (u + [sep] + v)[|u| + 1..];
  }

  /** Text made of two numbers around a separator that is not a digit
      determines both numbers. */
  lemma JoinedNumbersDetermine(a: nat, b: nat, c: nat, d: nat, sep: char)
    requires !IsDigit(sep)
    ensures NatToString(a) + [sep] + NatToString(b) == NatToString(c) + [sep] + NatToString(d) <==> a == c && b == d
  {
    NatToStringRoundTrip(a);
    NatToStringRoundTrip(c);
    NatToStringInjective(a, c);
    NatToStringInjective(b, d);
    if NatToString(a) + [sep] + NatToString(b) == NatToString(c) + [sep] + NatToString(d) {
      SplitAtSeparator(NatToString(a), NatToString(b), NatToString(c), NatToString(d), sep);
    }
  }

  // ---------------------------------------------------------------- ordered maps

  /** The entries of a JavaScript `Map`, or of a plain object whose keys are not
      array indices: a lookup table plus the order in which keys were first set. */
  datatype OMap<K(==,!new), V> = OMap(keys: seq<K>, m: map<K, V>)
  {
    ghost predicate Valid()
    {
      && (forall i, j :: 0 <= i < j < |keys| ==> keys[i] != keys[j])
      && (forall k :: k in m <==> k in keys)
    }

    /** `map.set(k, v)`: a new key goes last, an existing key keeps its place. */
    function Put(k: K, v: V): (r: OMap<K, V>)
      ensures Valid() ==> r.Valid()
      ensures r.m == m[k := v]
      ensures k in m ==> r.keys == keys
      ensures k !in m ==> r.keys == keys + [k]
    {
      OMap(if k in m then keys else keys + [k], m[k := v])
    }

    /** Writing a key twice keeps the second value. */
    lemma PutPut(k: K, v: V, w: V)
      ensures Put(k, v).Put(k, w) == Put(k, w)
    {
      assert m[k := v][k := w] == m[k := w];
    }

    /** Writing back the value a key already has changes nothing. */
    lemma PutSame(k: K)
      requires k in m
      ensures Put(k, m[k]) == this
    {
      assert m[k := m[k]] == m;
    }

    /** `map.get(k) || d` for a map whose values are never falsy. */
    function Get(k: K, d: V): V
    {
      if k in m then m[k] else d
    }
  }

  function EmptyMap<K(==,!new), V>(): (r: OMap<K, V>)
    ensures r.Valid() && r.keys == [] && r.m == map[]
  {
    OMap([], map[])
  }

  // ---------------------------------------------------------------- sequences

  /** The elements of `s` that satisfy `p`, in order (`Array.prototype.filter`). */
  function Filter<T(!new)>(s: seq<T>, p: T -> bool): (r: seq<T>)
    ensures |r| <= |s|
    ensures forall x :: x in r <==> x in s && p(x)
  {
    if s == [] then [] else Filter(s[..|s| - 1], p) + (if p(s[|s| - 1]) then [s[|s| - 1]] else [])
  }

  /** The values of the non-null entries of `s`, in order (`filter(q => q !== null)`). */
  function Present<T(!new)>(s: seq<Option<T>>): (r: seq<T>)
    ensures |r| <= |s|
    ensures forall x :: x in r <==> Some(x) in s
  {
    if s == [] then []
    else Present(s[..|s| - 1]) + (if s[|s| - 1].Some? then [s[|s| - 1].value] else [])
  }

  /** One more entry adds its value when it has one. */
  lemma PresentSnoc<T(!new)>(s: seq<Option<T>>, x: Option<T>)
    ensures Present(s + [x]) == Present(s) + if x.Some? then [x.value] else []
  {
    assert (s + [x])[..|s|] == s;
  }

  /** The distinct elements of `s` in first-occurrence order (`[...new Set(s)]`). */
  function Dedup<T(==,!new)>(s: seq<T>): (r: seq<T>)
    ensures forall x :: x in r <==> x in s
    ensures forall i, j :: 0 <= i < j < |r| ==> r[i] != r[j]
    ensures |r| <= |s|
  {
    if s == [] then []
    else
      var d := Dedup(s[..|s| - 1]);
      assert forall x :: x in s <==> x in s[..|s| - 1] || x == s[|s| - 1];
      if s[|s| - 1] in d then d else d + [s[|s| - 1]]
  }

  /** Σ f(x) over `s`, accumulated from the left as `reduce` does. */
  function SumOf<T>(s: seq<T>, f: T -> real): real
  {
    if s == [] then 0.0 else SumOf(s[..|s| - 1], f) + f(s[|s| - 1])
  }

  lemma {:induction false} SumOfAppend<T>(a: seq<T>, b: seq<T>, f: T -> real)
    ensures SumOf(a + b, f) == SumOf(a, f) + SumOf(b, f)
    decreases |b|
  {
    if b == [] {
      assert a + b == a;
    } else {
      assert (a + b)[..|a + b| - 1] == a + b[..|b| - 1];
      SumOfAppend(a, b[..|b| - 1], f);
    }
  }

  /** A sum does not depend on the order of its terms. */
  lemma {:induction false} SumOfPermutation<T>(a: seq<T>, b: seq<T>, f: T -> real)
    requires multiset(a) == multiset(b)
    ensures SumOf(a, f) == SumOf(b, f)
    decreases |a|
  {
    if a != [] {
      var x := a[|a| - 1];
      assert x in multiset(b);
      var j :| 0 <= j < |b| && b[j] == x;
      var rest := b[..j] + b[j + 1..];
      assert b == b[..j] + [x] + b[j + 1..];
      assert a == a[..|a| - 1] + [x];
      calc {
        multiset(a[..|a| - 1]) + multiset{x};
        multiset(a);
        multiset(b);
        multiset(b[..j]) + multiset{x} + multiset(b[j + 1..]);
        multiset(rest) + multiset{x};
      }
      var ma, mr := multiset(a[..|a| - 1]), multiset(rest);
      assert ma == (ma + multiset{x}) - multiset{x};
      assert mr == (mr + multiset{x}) - multiset{x};
      SumOfPermutation(a[..|a| - 1], rest, f);
      SumOfAppend(b[..j] + [x], b[j + 1..], f);
      SumOfAppend(b[..j], [x], f);
      SumOfAppend(b[..j], b[j + 1..], f);
      assert SumOf([x], f) == f(x) by {
        assert [x][..0] == [];
      }
    }
  }

  lemma SumOfPrefix<T>(s: seq<T>, i: nat, f: T -> real)
    requires i < |s|
    ensures SumOf(s[..i + 1], f) == SumOf(s[..i], f) + f(s[i])
  {
    assert s[..i + 1][..i] == s[..i];
  }

  /** Changing the summed function at one key of a repeat-free sequence changes
      the sum by the difference at that key. */
  lemma {:induction false} SumOfUpdate<T>(s: seq<T>, f: T -> real, g: T -> real, k: T)
    requires forall i, j :: 0 <= i < j < |s| ==> s[i] != s[j]
    requires forall x :: x != k ==> f(x) == g(x)
    ensures SumOf(s, g) == SumOf(s, f) + (if k in s then g(k) - f(k) else 0.0)
  {
    if s != [] {
      var p := s[..|s| - 1];
      SumOfUpdate(p, f, g, k);
      assert s == p + [s[|s| - 1]];
      if s[|s| - 1] == k {
        assert k !in p;
      }
    }
  }

  /** Summing `f` over a filtered sequence is summing over all of it any `g`
      that agrees with `f` on the kept elements and is zero on the others. */
  lemma {:induction false} SumOfFilter<T(!new)>(s: seq<T>, p: T -> bool, f: T -> real, g: T -> real)
    requires forall x :: x in s ==> g(x) == if p(x) then f(x) else 0.0
    ensures SumOf(Filter(s, p), f) == SumOf(s, g)
  {
    if s != [] {
      var q, x := s[..|s| - 1], s[|s| - 1];
      assert forall y :: y in q ==> y in s;
      SumOfFilter(q, p, f, g);
      assert SumOf(s, g) == SumOf(q, g) + g(x);
      var fq := Filter(q, p);
      if p(x) {
        assert Filter(s, p) == fq + [x];
        assert (fq + [x])[..|fq|] == fq;
        assert SumOf(fq + [x], f) == SumOf(fq, f) + f(x);
      } else {
        assert Filter(s, p) == fq;
      }
    }
  }

  /** Sums of two functions that agree on the elements agree. */
  lemma {:induction false} SumOfCongruent<T>(s: seq<T>, f: T -> real, g: T -> real)
    requires forall x :: x in s ==> f(x) == g(x)
    ensures SumOf(s, f) == SumOf(s, g)
  {
    if s != [] {
      SumOfCongruent(s[..|s| - 1], f, g);
    }
  }

  /** A sum of non-negative terms is non-negative. */
  lemma {:induction false} SumOfNonNegative<T>(s: seq<T>, f: T -> real)
    requires forall x :: x in s ==> f(x) >= 0.0
    ensures SumOf(s, f) >= 0.0
  {
    if s != [] {
      SumOfNonNegative(s[..|s| - 1], f);
    }
  }

  /** A sum of non-positive terms is non-positive. */
  lemma {:induction false} SumOfNonPositive<T>(s: seq<T>, f: T -> real)
    requires forall x :: x in s ==> f(x) <= 0.0
    ensures SumOf(s, f) <= 0.0
  {
    if s != [] {
      SumOfNonPositive(s[..|s| - 1], f);
    }
  }

  /** A sum of zeros is zero. */
  lemma {:induction false} SumOfZeros<T>(s: seq<T>, f: T -> real)
    requires forall x :: x in s ==> f(x) == 0.0
    ensures SumOf(s, f) == 0.0
  {
    if s != [] {
      SumOfZeros(s[..|s| - 1], f);
    }
  }

  /** Sums over two orderings of the same distinct keys agree. */
  lemma SumOverSameKeys<T>(a: seq<T>, b: seq<T>, f: T -> real)
    requires forall i, j :: 0 <= i < j < |a| ==> a[i] != a[j]
    requires forall i, j :: 0 <= i < j < |b| ==> b[i] != b[j]
    requires forall t :: t in a <==> t in b
    ensures SumOf(a, f) == SumOf(b, f)
  {
    DistinctSameSetSameMultiset(a, b);
    SumOfPermutation(a, b, f);
  }

  lemma DistinctSameSetSameMultiset<T>(a: seq<T>, b: seq<T>)
    requires forall i, j :: 0 <= i < j < |a| ==> a[i] != a[j]
    requires forall i, j :: 0 <= i < j < |b| ==> b[i] != b[j]
    requires forall t :: t in a <==> t in b
    ensures multiset(a) == multiset(b)
  {
    forall t ensures multiset(a)[t] == multiset(b)[t] {
      DistinctCount(a, t);
      DistinctCount(b, t);
    }
  }

  /** In a sequence without repeats every element occurs once. */
  lemma {:induction false} DistinctCount<T>(s: seq<T>, t: T)
    requires forall i, j :: 0 <= i < j < |s| ==> s[i] != s[j]
    ensures multiset(s)[t] == if t in s then 1 else 0
  {
    if s != [] {
      var p := s[..|s| - 1];
      assert s == p + [s[|s| - 1]];
      DistinctCount(p, t);
      if t == s[|s| - 1] {
        assert t !in p;
      }
    }
  }

  /** A permutation of a repeat-free sequence is repeat-free. */
  lemma PermutationKeepsDistinct<T>(a: seq<T>, b: seq<T>)
    requires multiset(a) == multiset(b)
    requires forall i, j :: 0 <= i < j < |a| ==> a[i] != a[j]
    ensures forall i, j :: 0 <= i < j < |b| ==> b[i] != b[j]
  {
    forall i, j | 0 <= i < j < |b|
      ensures b[i] != b[j]
    {
      DistinctCount(a, b[i]);
      assert b == b[..j] + [b[j]] + b[j + 1..];
      assert b[i] in b[..j];
    }
  }

  // ---------------------------------------------------------------- grouped sums

  /** One `acc[key(x)] = (acc[key(x)] || 0) + val(x)` step. */
  function AddTo<T, K(==,!new)>(acc: OMap<K, real>, x: T, key: T -> K, val: T -> real): OMap<K, real>
  {
    acc.Put(key(x), acc.Get(key(x), 0.0) + val(x))
  }

  /** The per-key sums of `val` over `s`, keys in first-occurrence order. */
  function GroupSums<T, K(==,!new)>(s: seq<T>, key: T -> K, val: T -> real): (r: OMap<K, real>)
    ensures r.Valid()
  {
    if s == [] then EmptyMap() else AddTo(GroupSums(s[..|s| - 1], key, val), s[|s| - 1], key, val)
  }

  /** What `x` adds to the sum of key `k`. */
  function ShareOf<T, K(==)>(k: K, x: T, key: T -> K, val: T -> real): real
  {
    if key(x) == k then val(x) else 0.0
  }

  /** A key has an entry exactly when some element carries it, and its entry is
      the sum of `val` over those elements. */
  lemma GroupSumsSpec<T, K(!new)>(s: seq<T>, key: T -> K, val: T -> real, k: K)
    ensures k in GroupSums(s, key, val).m <==> exists x :: x in s && key(x) == k
    ensures GroupSums(s, key, val).Get(k, 0.0) == SumOf(s, x => ShareOf(k, x, key, val))
  {
    GroupSumsHas(s, key, val, k);
    GroupSumsValue(s, key, val, k);
  }

  lemma {:induction false} GroupSumsHas<T, K(!new)>(s: seq<T>, key: T -> K, val: T -> real, k: K)
    ensures k in GroupSums(s, key, val).m <==> exists x :: x in s && key(x) == k
  {
    if s != [] {
      var p, last := s[..|s| - 1], s[|s| - 1];
      GroupSumsHas(p, key, val, k);
      assert GroupSums(s, key, val).m == GroupSums(p, key, val).m[key(last) := GroupSums(p, key, val).Get(key(last), 0.0) + val(last)];
      if exists x :: x in s && key(x) == k {
        var x :| x in s && key(x) == k;
        if x != last {
          assert x in p;
        }
      }
      if exists x :: x in p && key(x) == k {
        var x :| x in p && key(x) == k;
        assert x in s;
      }
      assert last in s;
    }
  }

  lemma {:induction false} GroupSumsValue<T, K(!new)>(s: seq<T>, key: T -> K, val: T -> real, k: K)
    ensures GroupSums(s, key, val).Get(k, 0.0) == SumOf(s, x => ShareOf(k, x, key, val))
  {
    if s != [] {
      var p, last := s[..|s| - 1], s[|s| - 1];
      GroupSumsValue(p, key, val, k);
      var before := GroupSums(p, key, val);
      assert GroupSums(s, key, val) == AddTo(before, last, key, val);
      assert GroupSums(s, key, val).Get(k, 0.0) == before.Get(k, 0.0) + ShareOf(k, last, key, val);
    }
  }

  /** Σ of the entries of a grouped sum. */
  function GroupTotal<K(==,!new)>(g: OMap<K, real>): real
  {
    SumOf(g.keys, k => g.Get(k, 0.0))
  }

  /** Grouping neither loses nor duplicates anything: the entries add up to the
      sum over all elements. */
  lemma {:induction false} GroupSumsTotal<T, K(!new)>(s: seq<T>, key: T -> K, val: T -> real)
    ensures GroupTotal(GroupSums(s, key, val)) == SumOf(s, val)
  {
    if s != [] {
      var p, last := s[..|s| - 1], s[|s| - 1];
      GroupSumsTotal(p, key, val);
      var before, after := GroupSums(p, key, val), GroupSums(s, key, val);
      var k := key(last);
      var f, g := (x: K) => before.Get(x, 0.0), (x: K) => after.Get(x, 0.0);
      SumOfUpdate(before.keys, f, g, k);
      if k !in before.m {
        SumOfAppend(before.keys, [k], g);
        assert SumOf([k], g) == g(k) by {
          assert [k][..0] == [];
        }
      }
    }
  }

  // ---------------------------------------------------------------- keyed folds

  /** `s.map(f)`. */
  function Mapped<T, U>(s: seq<T>, f: T -> U): (r: seq<U>)
    ensures |r| == |s|
    ensures forall i :: 0 <= i < |s| ==> r[i] == f(s[i])
  {
    if s == [] then [] else Mapped(s[..|s| - 1], f) + [f(s[|s| - 1])]
  }

  /** Mapping with two functions that agree on the elements gives the same. */
  lemma MappedAgree<T, U>(s: seq<T>, f: T -> U, g: T -> U)
    requires forall i :: 0 <= i < |s| ==> f(s[i]) == g(s[i])
    ensures Mapped(s, f) == Mapped(s, g)
  {
  }

  /** Mapping distributes over concatenation. */
  lemma MappedAppend<T, U>(a: seq<T>, b: seq<T>, f: T -> U)
    ensures Mapped(a + b, f) == Mapped(a, f) + Mapped(b, f)
  {
  }

  /** Summing over a mapped sequence is summing the composed function. */
  lemma {:induction false} SumOfMapped<T, U>(s: seq<T>, f: T -> U, h: U -> real, g: T -> real)
    requires forall x :: x in s ==> h(f(x)) == g(x)
    ensures SumOf(Mapped(s, f), h) == SumOf(s, g)
  {
    if s != [] {
      SumOfMapped(s[..|s| - 1], f, h, g);
      assert Mapped(s, f)[..|s| - 1] == Mapped(s[..|s| - 1], f);
    }
  }

  /** A key is among the distinct keys of `s` iff some element has it. */
  lemma InDedupMapped<T, K(!new)>(s: seq<T>, key: T -> K, k: K)
    ensures k in Dedup(Mapped(s, key)) <==> exists i :: 0 <= i < |s| && key(s[i]) == k
  {
    assert k in Mapped(s, key) <==> exists i :: 0 <= i < |s| && Mapped(s, key)[i] == k;
  }

  /** The distinct keys of `s` in order of first occurrence, one step at a time. */
  lemma DedupMappedStep<T, K(!new)>(s: seq<T>, key: T -> K)
    requires s != []
    ensures var d, k := Dedup(Mapped(s[..|s| - 1], key)), key(s[|s| - 1]);
      Dedup(Mapped(s, key)) == if k in d then d else d + [k]
  {
    assert Mapped(s, key)[..|s| - 1] == Mapped(s[..|s| - 1], key);
  }

  /** A grouping map lists its keys in order of first occurrence (insertion
      order of a JavaScript object with non-integer keys, or of a `Map`). */
  lemma {:induction false} GroupSumsKeys<T, K(!new)>(s: seq<T>, key: T -> K, val: T -> real)
    ensures GroupSums(s, key, val).keys == Dedup(Mapped(s, key))
  {
    if s != [] {
      GroupSumsKeys(s[..|s| - 1], key, val);
      DedupMappedStep(s, key);
    }
  }

  /** JavaScript `+` on numbers, None standing for NaN, which absorbs. */
  function AddNum(a: Option<real>, b: Option<real>): Option<real>
  {
    if a.Some? && b.Some? then Some(a.value + b.value) else None
  }

  /** `n || 0` for a number that may be NaN. */
  function OrZero(n: Option<real>): real
  {
    if n.Some? then n.value else 0.0
  }

  /** The function `x => num(x) || 0`. */
  function Zeroed<T>(num: T -> Option<real>): T -> real
  {
    x => OrZero(num(x))
  }

  /** `acc[k].field += num(x)` with `k = key(x)`, the field starting at 0 when
      the key is first seen. The entry is an object, which is never falsy, so a
      NaN field is not reset by the `if (!acc[k])` initialisation. */
  function AddNumTo<T, K(==,!new)>(acc: OMap<K, Option<real>>, x: T, key: T -> K, num: T -> Option<real>): OMap<K, Option<real>>
  {
    acc.Put(key(x), AddNum(acc.Get(key(x), Some(0.0)), num(x)))
  }

  /** Grouped sums that may hit NaN. */
  function GroupNums<T, K(==,!new)>(s: seq<T>, key: T -> K, num: T -> Option<real>): (r: OMap<K, Option<real>>)
    ensures r.Valid()
  {
    if s == [] then EmptyMap() else AddNumTo(GroupNums(s[..|s| - 1], key, num), s[|s| - 1], key, num)
  }

  /** Some element of `s` has key `k`. */
  predicate Carries<T, K(==)>(s: seq<T>, key: T -> K, k: K)
  {
    exists i :: 0 <= i < |s| && key(s[i]) == k
  }

  lemma CarriesStep<T, K>(s: seq<T>, key: T -> K, k: K)
    requires s != []
    ensures Carries(s, key, k) <==> Carries(s[..|s| - 1], key, k) || key(s[|s| - 1]) == k
  {
    var p := s[..|s| - 1];
    if Carries(s, key, k) && key(s[|s| - 1]) != k {
      var i :| 0 <= i < |s| && key(s[i]) == k;
      assert p[i] == s[i];
    }
    if Carries(p, key, k) {
      var i :| 0 <= i < |p| && key(p[i]) == k;
      assert s[i] == p[i];
    }
  }

  /** Some member of group `k` has a NaN number. */
  predicate HasNaN<T, K(==)>(s: seq<T>, key: T -> K, num: T -> Option<real>, k: K)
  {
    exists i :: 0 <= i < |s| && key(s[i]) == k && num(s[i]).None?
  }

  lemma HasNaNStep<T, K>(s: seq<T>, key: T -> K, num: T -> Option<real>, k: K)
    requires s != []
    ensures HasNaN(s, key, num, k)
        <==> HasNaN(s[..|s| - 1], key, num, k) || (key(s[|s| - 1]) == k && num(s[|s| - 1]).None?)
  {
    assert forall i :: 0 <= i < |s| - 1 ==> s[i] == s[..|s| - 1][i];
  }

  /** The last element changes only its own group: it adds its number there. */
  lemma GroupNumsLast<T, K(!new)>(s: seq<T>, key: T -> K, num: T -> Option<real>, k: K)
    requires s != []
    ensures var before := GroupNums(s[..|s| - 1], key, num).Get(k, Some(0.0));
      GroupNums(s, key, num).Get(k, Some(0.0))
        == if key(s[|s| - 1]) == k then AddNum(before, num(s[|s| - 1])) else before
  {
    assert GroupNums(s, key, num) == AddNumTo(GroupNums(s[..|s| - 1], key, num), s[|s| - 1], key, num);
  }

  /** The last element adds its value to its own group only. */
  lemma GroupSumsLast<T, K(!new)>(s: seq<T>, key: T -> K, val: T -> real, k: K)
    requires s != []
    ensures var before := GroupSums(s[..|s| - 1], key, val).Get(k, 0.0);
      GroupSums(s, key, val).Get(k, 0.0) == if key(s[|s| - 1]) == k then before + val(s[|s| - 1]) else before
  {
    assert GroupSums(s, key, val) == AddTo(GroupSums(s[..|s| - 1], key, val), s[|s| - 1], key, val);
  }

  /** NaN groups have the same keys as the ordinary grouping. */
  lemma {:induction false} GroupNumsKeys<T, K(!new)>(s: seq<T>, key: T -> K, num: T -> Option<real>)
    ensures GroupNums(s, key, num).keys == Dedup(Mapped(s, key))
  {
    if s != [] {
      GroupNumsKeys(s[..|s| - 1], key, num);
      DedupMappedStep(s, key);
    }
  }

  /** A group is NaN exactly when one of its members is, and otherwise it is
      the ordinary grouped sum. */
  lemma {:induction false} GroupNumsSpec<T, K(!new)>(s: seq<T>, key: T -> K, num: T -> Option<real>, k: K)
    ensures GroupNums(s, key, num).Get(k, Some(0.0))
         == if HasNaN(s, key, num, k) then None else Some(GroupSums(s, key, Zeroed(num)).Get(k, 0.0))
  {
    if s == [] {
      assert !HasNaN(s, key, num, k);
    } else {
      var p, last := s[..|s| - 1], s[|s| - 1];
      GroupNumsSpec(p, key, num, k);
      HasNaNStep(s, key, num, k);
      GroupNumsLast(s, key, num, k);
      GroupSumsLast(s, key, Zeroed(num), k);
      assert Zeroed(num)(last) == OrZero(num(last));
      NaNSumStep(GroupNums(p, key, num).Get(k, Some(0.0)), GroupSums(p, key, Zeroed(num)).Get(k, 0.0),
                 HasNaN(p, key, num, k), key(last) == k, num(last),
                 GroupNums(s, key, num).Get(k, Some(0.0)), HasNaN(s, key, num, k),
                 GroupSums(s, key, Zeroed(num)).Get(k, 0.0));
    }
  }

  /** One step of a grouped sum that may hit NaN, on the values of one group. */
  lemma NaNSumStep(before: Option<real>, sum: real, nan: bool, mine: bool, x: Option<real>,
                   now: Option<real>, has: bool, total: real)
    requires before == if nan then None else Some(sum)
    requires now == if mine then AddNum(before, x) else before
    requires has == (nan || (mine && x.None?))
    requires total == if mine then sum + OrZero(x) else sum
    ensures now == if has then None else Some(total)
  {
  }

  /** `if (!acc[k]) acc[k] = f(x)`: the first element with a key fixes its entry. */
  function KeepFirst<T, K(==,!new), V>(acc: OMap<K, V>, x: T, key: T -> K, f: T -> V): OMap<K, V>
  {
    if key(x) in acc.m then acc else acc.Put(key(x), f(x))
  }

  /** The entry of each key made from its first element. */
  function FirstOf<T, K(==,!new), V>(s: seq<T>, key: T -> K, f: T -> V): (r: OMap<K, V>)
    ensures r.Valid()
  {
    if s == [] then EmptyMap() else KeepFirst(FirstOf(s[..|s| - 1], key, f), s[|s| - 1], key, f)
  }

  /** The last element fixes the entry of its key only when the key is new. */
  lemma FirstOfLast<T, K(!new), V>(s: seq<T>, key: T -> K, f: T -> V, k: K)
    requires s != []
    ensures var before := FirstOf(s[..|s| - 1], key, f);
      && (k in FirstOf(s, key, f).m <==> k in before.m || key(s[|s| - 1]) == k)
      && (k in before.m ==> FirstOf(s, key, f).m[k] == before.m[k])
      && (k !in before.m && key(s[|s| - 1]) == k ==> FirstOf(s, key, f).m[k] == f(s[|s| - 1]))
  {
    assert FirstOf(s, key, f) == KeepFirst(FirstOf(s[..|s| - 1], key, f), s[|s| - 1], key, f);
  }

  /** First-entry maps have the grouping's keys, in order of first occurrence. */
  lemma {:induction false} FirstOfKeys<T, K(!new), V>(s: seq<T>, key: T -> K, f: T -> V)
    ensures FirstOf(s, key, f).keys == Dedup(Mapped(s, key))
  {
    if s != [] {
      FirstOfKeys(s[..|s| - 1], key, f);
      DedupMappedStep(s, key);
    }
  }

  /** A key without an entry belongs to no element. */
  lemma FirstOfAbsent<T, K(!new), V>(s: seq<T>, key: T -> K, f: T -> V, k: K)
    requires k !in FirstOf(s, key, f).m
    ensures forall j :: 0 <= j < |s| ==> key(s[j]) != k
  {
    FirstOfKeys(s, key, f);
    InDedupMapped(s, key, k);
  }

  /** Each entry is made from the earliest element with its key. */
  lemma {:induction false} FirstOfSpec<T, K(!new), V>(s: seq<T>, key: T -> K, f: T -> V, k: K)
    requires k in FirstOf(s, key, f).m
    ensures exists i :: 0 <= i < |s| && key(s[i]) == k && FirstOf(s, key, f).m[k] == f(s[i])
                        && forall j :: 0 <= j < i ==> key(s[j]) != k
  {
    var p, last := s[..|s| - 1], s[|s| - 1];
    if k in FirstOf(p, key, f).m {
      FirstOfSpec(p, key, f, k);
      var i :| 0 <= i < |p| && key(p[i]) == k && FirstOf(p, key, f).m[k] == f(p[i])
               && forall j :: 0 <= j < i ==> key(p[j]) != k;
      assert FirstOf(s, key, f).m[k] == FirstOf(p, key, f).m[k];
      assert forall j :: 0 <= j <= i ==> s[j] == p[j];
    } else {
      FirstOfAbsent(p, key, f, k);
      assert key(last) == k && FirstOf(s, key, f).m[k] == f(last);
      assert forall j :: 0 <= j < |p| ==> s[j] == p[j];
      assert key(s[|s| - 1]) == k;
    }
  }

  /** `map.set(key(x), f(x))` over all of `s`: the last element with a key wins. */
  function LastOf<T, K(==,!new), V>(s: seq<T>, key: T -> K, f: T -> V): (r: OMap<K, V>)
    ensures r.Valid()
  {
    if s == [] then EmptyMap() else LastOf(s[..|s| - 1], key, f).Put(key(s[|s| - 1]), f(s[|s| - 1]))
  }

  /** One more element of a prefix is one more write. */
  lemma LastOfPrefix<T, K(!new), V>(s: seq<T>, i: int, key: T -> K, f: T -> V)
    requires 0 <= i < |s|
    ensures LastOf(s[..i + 1], key, f) == LastOf(s[..i], key, f).Put(key(s[i]), f(s[i]))
  {
    assert s[..i + 1][..i] == s[..i];
  }

  /** Last-write maps keep their keys in order of first occurrence. */
  lemma {:induction false} LastOfKeys<T, K(!new), V>(s: seq<T>, key: T -> K, f: T -> V)
    ensures LastOf(s, key, f).keys == Dedup(Mapped(s, key))
  {
    if s != [] {
      LastOfKeys(s[..|s| - 1], key, f);
      DedupMappedStep(s, key);
    }
  }

  /** Each entry is made from the latest element with its key. */
  lemma {:induction false} LastOfSpec<T, K(!new), V>(s: seq<T>, key: T -> K, f: T -> V, k: K) returns (i: int)
    requires k in LastOf(s, key, f).m
    ensures 0 <= i < |s| && key(s[i]) == k && LastOf(s, key, f).m[k] == f(s[i])
    ensures forall j :: i < j < |s| ==> key(s[j]) != k
  {
    var p, last := s[..|s| - 1], s[|s| - 1];
    var acc := LastOf(p, key, f);
    assert LastOf(s, key, f).m == acc.m[key(last) := f(last)];
    if key(last) == k {
      i := |s| - 1;
    } else {
      assert k in acc.m;
      i := LastOfSpec(p, key, f, k);
      assert s[i] == p[i];
      forall j | i < j < |s| ensures key(s[j]) != k {
        if j < |s| - 1 {
          assert s[j] == p[j];
        }
      }
    }
  }

  // ---------------------------------------------------------------- sorting

  predicate SortedBy<T>(s: seq<T>, key: T -> real)
  {
    forall i, j :: 0 <= i < j < |s| ==> key(s[i]) <= key(s[j])
  }

  /** Inserts `x` before the first element whose key is not below its own. */
  function InsertBy<T>(x: T, s: seq<T>, key: T -> real): (r: seq<T>)
    ensures multiset(r) == multiset(s) + multiset{x}
    ensures |r| == |s| + 1
  {
    if s == [] then [x]
    else if key(x) <= key(s[0]) then [x] + s
    else
      assert s == [s[0]] + s[1..];
      [s[0]] + InsertBy(x, s[1..], key)
  }

  lemma {:induction false} InsertBySorted<T>(x: T, s: seq<T>, key: T -> real)
    requires SortedBy(s, key)
    ensures SortedBy(InsertBy(x, s, key), key)
  {
    if s != [] && key(x) > key(s[0]) {
      var rest := s[1..];
      assert SortedBy(rest, key) by {
        assert forall i :: 0 <= i < |rest| ==> rest[i] == s[i + 1];
      }
      var t := InsertBy(x, rest, key);
      InsertBySorted(x, rest, key);
      forall i | 0 <= i < |t| ensures key(s[0]) <= key(t[i]) {
        HeadBelowInserted(x, s, t[i], key);
      }
      ConsSorted(s[0], t, key);
    }
  }

  /** Every element of an insertion into the tail of a sorted sequence, past its
      head, has a key no smaller than the head's. */
  lemma HeadBelowInserted<T>(x: T, s: seq<T>, y: T, key: T -> real)
    requires SortedBy(s, key) && s != [] && key(x) > key(s[0])
    requires y in multiset(InsertBy(x, s[1..], key))
    ensures key(s[0]) <= key(y)
  {
    if y != x {
      assert y in multiset(s[1..]);
      var m :| 0 <= m < |s[1..]| && s[1..][m] == y;
      assert s[m + 1] == y;
    }
  }

  lemma ConsSorted<T>(a: T, t: seq<T>, key: T -> real)
    requires SortedBy(t, key)
    requires forall i :: 0 <= i < |t| ==> key(a) <= key(t[i])
    ensures SortedBy([a] + t, key)
  {
    var r := [a] + t;
    forall i, j | 0 <= i < j < |r| ensures key(r[i]) <= key(r[j]) {
      assert r[j] == t[j - 1];
      if i > 0 {
        assert r[i] == t[i - 1];
      }
    }
  }

  /** Equal keys appear in increasing `pos`. */
  predicate StableBy<T>(s: seq<T>, key: T -> real, pos: T -> int)
  {
    forall i, j :: 0 <= i < j < |s| && key(s[i]) == key(s[j]) ==> pos(s[i]) < pos(s[j])
  }

  /** Inserting an element that precedes all others keeps equal keys in order. */
  lemma {:induction false} InsertByStable<T>(x: T, s: seq<T>, key: T -> real, pos: T -> int)
    requires StableBy(s, key, pos)
    requires forall i :: 0 <= i < |s| ==> pos(x) < pos(s[i])
    ensures StableBy(InsertBy(x, s, key), key, pos)
  {
    if s != [] && key(x) > key(s[0]) {
      var rest := s[1..];
      assert forall i :: 0 <= i < |rest| ==> rest[i] == s[i + 1];
      InsertByStable(x, rest, key, pos);
      var t := InsertBy(x, rest, key);
      forall j | 0 <= j < |t| && key(s[0]) == key(t[j]) ensures pos(s[0]) < pos(t[j]) {
        FirstStaysFirst(x, s, t, j, key, pos);
      }
      ConsStable(s[0], t, key, pos);
    }
  }

  lemma ConsStable<T>(a: T, t: seq<T>, key: T -> real, pos: T -> int)
    requires StableBy(t, key, pos)
    requires forall j :: 0 <= j < |t| && key(a) == key(t[j]) ==> pos(a) < pos(t[j])
    ensures StableBy([a] + t, key, pos)
  {
    var r := [a] + t;
    forall i, j | 0 <= i < j < |r| && key(r[i]) == key(r[j]) ensures pos(r[i]) < pos(r[j]) {
      assert r[j] == t[j - 1];
      if i > 0 {
        assert r[i] == t[i - 1];
      }
    }
  }

  lemma FirstStaysFirst<T>(x: T, s: seq<T>, t: seq<T>, j: int, key: T -> real, pos: T -> int)
    requires s != [] && key(x) > key(s[0])
    requires StableBy(s, key, pos)
    requires multiset(t) == multiset(s[1..]) + multiset{x}
    requires 0 <= j < |t| && key(s[0]) == key(t[j])
    ensures pos(s[0]) < pos(t[j])
  {
    assert t[j] in multiset(t);
    if t[j] != x {
      assert t[j] in multiset(s[1..]);
      var m :| 0 <= m < |s[1..]| && s[1..][m] == t[j];
      assert s[m + 1] == t[j];
    }
  }

  /** `SortBy` is stable: elements with equal keys keep their input order. */
  lemma {:induction false} SortByStable<T>(s: seq<T>, key: T -> real, pos: T -> int)
    requires forall i, j :: 0 <= i < j < |s| ==> pos(s[i]) < pos(s[j])
    ensures StableBy(SortBy(s, key), key, pos)
  {
    if s != [] {
      assert s == [s[0]] + s[1..];
      SortByStable(s[1..], key, pos);
      var t := SortBy(s[1..], key);
      forall i | 0 <= i < |t| ensures pos(s[0]) < pos(t[i]) {
        assert t[i] in multiset(t);
        var m :| 0 <= m < |s[1..]| && s[1..][m] == t[i];
        assert s[m + 1] == t[i];
      }
      InsertByStable(s[0], t, key, pos);
    }
  }

  /** A stable sort ascending by `key`: `arr.sort((a, b) => key(a) - key(b))`.
      Equal keys keep their input order. */
  function SortBy<T>(s: seq<T>, key: T -> real): (r: seq<T>)
    ensures multiset(r) == multiset(s)
    ensures |r| == |s|
    ensures SortedBy(r, key)
  {
    if s == [] then []
    else
      assert s == [s[0]] + s[1..];
      var t := SortBy(s[1..], key);
      InsertBySorted(s[0], t, key);
      InsertBy(s[0], t, key)
  }
}
