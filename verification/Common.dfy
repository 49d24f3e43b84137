/** Shared vocabulary: failure datatypes, bytes, the string operations of the
    standard library that the modelled code calls, and sorting by a strict order. */
module Common {

  datatype Option<+T> = None | Some(value: T)

  datatype Result<+T, +E> = Ok(value: T) | Err(error: E)

  type Byte = x: int | 0 <= x < 256

  type Bytes = seq<Byte>

  function Max(a: int, b: int): int {
    if a >= b then a else b
  }

  // ---------------------------------------------------------------- trimming

  /** White space as the Unicode-aware trimming of the source counts it. */
  predicate IsSpace(c: char) {
    || '\t' <= c <= '\r' || c == ' ' || c == '\U{85}' || c == '\U{A0}'
    || c == '\U{1680}' || '\U{2000}' <= c <= '\U{200A}' || c == '\U{2028}'
    || c == '\U{2029}' || c == '\U{202F}' || c == '\U{205F}' || c == '\U{3000}'
  }

  function TrimLeft(s: string): (r: string)
    ensures r != [] ==> !IsSpace(r[0])
    ensures |r| <= |s| && r == s[|s| - |r|..]
  {
    if s != [] && IsSpace(s[0]) then TrimLeft(s[1..]) else s
  }

  function TrimRight(s: string): (r: string)
    ensures r != [] ==> !IsSpace(r[|r| - 1])
    ensures |r| <= |s| && r == s[..|r|]
  {
    if s != [] && IsSpace(s[|s| - 1]) then TrimRight(s[..|s| - 1]) else s
  }

  /** strings.TrimSpace: the result neither starts nor ends with white space,
      and text that already has that shape is left alone. */
  function TrimSpace(s: string): (r: string)
    ensures r != [] ==> !IsSpace(r[0]) && !IsSpace(r[|r| - 1])
    ensures (s == [] || (!IsSpace(s[0]) && !IsSpace(s[|s| - 1]))) ==> r == s
  {
    TrimRight(TrimLeft(s))
  }

  ghost predicate Blank(s: string) { forall i :: 0 <= i < |s| ==> IsSpace(s[i]) }

  lemma {:induction false} TrimLeftDrops(s: string, i: nat)
    requires i < |s| - |TrimLeft(s)|
    ensures IsSpace(s[i])
  {
    hide IsSpace;
    if i > 0 {
      TrimLeftDrops(s[1..], i - 1);
    }
  }

  lemma {:induction false} TrimRightDrops(s: string, i: nat)
    requires |TrimRight(s)| <= i < |s|
    ensures IsSpace(s[i])
  {
    hide IsSpace;
    if i < |s| - 1 {
      TrimRightDrops(s[..|s| - 1], i);
    }
  }

  lemma LeftPart(s: string) returns (left: string)
    ensures s == left + TrimLeft(s) && Blank(left)
  {
    hide IsSpace, TrimLeft;
    left := s[..|s| - |TrimLeft(s)|];
    forall i | 0 <= i < |left|
      ensures IsSpace(left[i])
    {
      TrimLeftDrops(s, i);
    }
  }

  lemma RightPart(s: string) returns (right: string)
    ensures s == TrimRight(s) + right && Blank(right)
  {
    hide IsSpace, TrimRight;
    right := s[|TrimRight(s)|..];
    forall i | 0 <= i < |right|
      ensures IsSpace(right[i])
    {
      TrimRightDrops(s, |TrimRight(s)| + i);
    }
  }

  lemma TrimParts(s: string)
    ensures TrimSpace(s) == TrimRight(TrimLeft(s))
  {
    hide TrimLeft, TrimRight;
  }

  /** Trimming takes nothing but white space off the two ends. */
  lemma TrimSpaceDrops(s: string) returns (left: string, right: string)
    ensures s == left + TrimSpace(s) + right && Blank(left) && Blank(right)
  {
    hide *;
    left := LeftPart(s);
    right := RightPart(TrimLeft(s));
    TrimParts(s);
  }

  // ------------------------------------------------------ decimals and lists of text

  predicate IsDigit(c: char) { '0' <= c <= '9' }

  predicate AllDigits(s: string) { forall i :: 0 <= i < |s| ==> IsDigit(s[i]) }

  function DigitsValue(s: string): nat
    requires AllDigits(s)
  {
    if s == [] then 0
    else
      assert IsDigit(s[|s| - 1]);
      10 * DigitsValue(s[..|s| - 1]) + (s[|s| - 1] as int - '0' as int)
  }

  /** A number in decimal, as formatting prints it. */
  function Decimal(n: int): (s: string)
    decreases if n < 0 then 1 else 0, n
  {
    if n < 0 then "-" + Decimal(-n)
    else if n < 10 then [('0' as int + n) as char]
    else Decimal(n / 10) + [('0' as int + n % 10) as char]
  }

  lemma {:induction false} DecimalReadsBack(n: nat)
    ensures Decimal(n) != "" && AllDigits(Decimal(n)) && DigitsValue(Decimal(n)) == n
  {
    if n >= 10 {
      DecimalReadsBack(n / 10);
      var s := Decimal(n);
      assert s[..|s| - 1] == Decimal(n / 10);
    }
  }

  /** Different numbers print differently, and no print contains a bar. */
  lemma DecimalIsInjective(m: int, n: int)
    ensures Decimal(m) == Decimal(n) ==> m == n
    ensures '|' !in Decimal(m)
  {
    DecimalReadsBack(if m < 0 then -m else m);
    DecimalReadsBack(if n < 0 then -n else n);
    if m < 0 {
      assert Decimal(m)[1..] == Decimal(-m) && Decimal(m)[0] == '-';
    }
    if n < 0 {
      assert Decimal(n)[1..] == Decimal(-n) && Decimal(n)[0] == '-';
    }
  }

  /** strings.Split on a single separator character: never empty. */
  function Split(s: string, sep: char): (parts: seq<string>)
    ensures |parts| > 0
    ensures forall i :: 0 <= i < |parts| ==> sep !in parts[i]
  {
    if s == "" then [""]
    else
      var rest := Split(s[1..], sep);
      if s[0] == sep then [""] + rest else [[s[0]] + rest[0]] + rest[1..]
  }

  function Join(parts: seq<string>, sep: char): string
    requires |parts| > 0
  {
    if |parts| == 1 then parts[0] else parts[0] + [sep] + Join(parts[1..], sep)
  }

  /** Splitting loses nothing. */
  lemma {:induction false} JoinUndoesSplit(s: string, sep: char)
    ensures Join(Split(s, sep), sep) == s
  {
    if s != "" {
      JoinUndoesSplit(s[1..], sep);
      var rest := Split(s[1..], sep);
      if s[0] != sep {
        var parts := [[s[0]] + rest[0]] + rest[1..];
        assert Split(s, sep) == parts;
        assert |parts| > 1 ==> parts[1..] == rest[1..];
      } else {
        assert ([""] + rest)[1..] == rest;
      }
    }
  }

  lemma SplitPrefix(part: string, rest: string, sep: char)
    requires sep !in part
    ensures Split(part + [sep] + rest, sep) == [part] + Split(rest, sep)
    ensures Split(part, sep) == [part]
  {
    if part == "" {
      assert ("" + [sep] + rest)[1..] == rest;
    } else {
      SplitPrefix(part[1..], rest, sep);
      assert (part + [sep] + rest)[1..] == part[1..] + [sep] + rest;
      assert part == [part[0]] + part[1..];
    }
  }

  /** Joined parts come apart again when none of them contains the separator. */
  lemma {:induction false} SplitUndoesJoin(parts: seq<string>, sep: char)
    requires |parts| > 0 && forall i :: 0 <= i < |parts| ==> sep !in parts[i]
    ensures Split(Join(parts, sep), sep) == parts
  {
    if |parts| == 1 {
      SplitPrefix(parts[0], "", sep);
    } else {
      SplitUndoesJoin(parts[1..], sep);
      SplitPrefix(parts[0], Join(parts[1..], sep), sep);
      assert parts == [parts[0]] + parts[1..];
    }
  }

  // ------------------------------------------------------- lexicographic order

  /** The order of strings compared code point by code point. */
  predicate StringLess(a: string, b: string) {
    b != [] && (a == [] || a[0] < b[0] || (a[0] == b[0] && StringLess(a[1..], b[1..])))
  }

  lemma {:induction false} StringLessTotal(a: string, b: string)
    ensures !(StringLess(a, b) && StringLess(b, a))
    ensures a != b ==> StringLess(a, b) || StringLess(b, a)
    ensures !StringLess(a, a)
  {
    if a != [] && b != [] {
      StringLessTotal(a[1..], b[1..]);
      StringLessTotal(a[1..], a[1..]);
      assert a == [a[0]] + a[1..] && b == [b[0]] + b[1..];
    } else if a != [] {
      StringLessTotal(a[1..], a[1..]);
    }
  }

  lemma {:induction false} StringLessTransitive(a: string, b: string, c: string)
    requires StringLess(a, b) && StringLess(b, c)
    ensures StringLess(a, c)
  {
    if a != [] && a[0] == b[0] == c[0] {
      StringLessTransitive(a[1..], b[1..], c[1..]);
    }
  }

  // --------------------------------------------------------- sorting by order

  /** lt behaves as a strict total order on the elements of dom. */
  ghost predicate StrictOrderOn<T(!new)>(lt: (T, T) -> bool, dom: set<T>) {
    && (forall x, y :: x in dom && y in dom ==> !(lt(x, y) && lt(y, x)))
    && (forall x, y :: x in dom && y in dom && x != y ==> lt(x, y) || lt(y, x))
    && (forall x, y, z :: x in dom && y in dom && z in dom && lt(x, y) && lt(y, z) ==> lt(x, z))
  }

  ghost predicate Within<T(!new)>(xs: seq<T>, dom: set<T>) {
    forall i :: 0 <= i < |xs| ==> xs[i] in dom
  }

  /** No later element is strictly before an earlier one. */
  ghost predicate SortedBy<T>(lt: (T, T) -> bool, xs: seq<T>) {
    forall i, j :: 0 <= i < j < |xs| ==> !lt(xs[j], xs[i])
  }

  function InsertBy<T>(lt: (T, T) -> bool, x: T, xs: seq<T>): (r: seq<T>)
    ensures multiset(r) == multiset(xs) + multiset{x}
    ensures |r| == |xs| + 1
  {
    if xs == [] || !lt(xs[0], x) then [x] + xs
    else
      assert xs == [xs[0]] + xs[1..];
      [xs[0]] + InsertBy(lt, x, xs[1..])
  }

  /** The library sort, with the comparator as its argument. Equal elements keep
      their order, so it also stands for the stable variant. */
  function SortBy<T>(lt: (T, T) -> bool, xs: seq<T>): (r: seq<T>)
    ensures multiset(r) == multiset(xs)
    ensures |r| == |xs|
  {
    if xs == [] then []
    else
      assert xs == [xs[0]] + xs[1..];
      InsertBy(lt, xs[0], SortBy(lt, xs[1..]))
  }

  lemma {:induction false} InsertBySorted<T(!new)>(lt: (T, T) -> bool, x: T, xs: seq<T>, dom: set<T>)
    requires StrictOrderOn(lt, dom) && x in dom && Within(xs, dom)
    requires SortedBy(lt, xs)
    ensures SortedBy(lt, InsertBy(lt, x, xs)) && Within(InsertBy(lt, x, xs), dom)
    ensures forall y :: y in InsertBy(lt, x, xs) ==> y == x || y in xs
  {
    if xs != [] && lt(xs[0], x) {
      InsertBySorted(lt, x, xs[1..], dom);
      var rest := InsertBy(lt, x, xs[1..]);
      forall j | 0 <= j < |rest|
        ensures !lt(rest[j], xs[0])
      {
        assert rest[j] == x || rest[j] in xs[1..];
      }
    }
  }

  lemma {:induction false} SortBySorted<T(!new)>(lt: (T, T) -> bool, xs: seq<T>, dom: set<T>)
    requires StrictOrderOn(lt, dom) && Within(xs, dom)
    ensures SortedBy(lt, SortBy(lt, xs)) && Within(SortBy(lt, xs), dom)
  {
    if xs != [] {
      SortBySorted(lt, xs[1..], dom);
      InsertBySorted(lt, xs[0], SortBy(lt, xs[1..]), dom);
    }
  }

  lemma SameElements<T>(a: seq<T>, b: seq<T>)
    requires multiset(a) == multiset(b)
    ensures |a| == |b|
    ensures forall x :: x in a <==> x in b
  {
    assert |multiset(a)| == |a| && |multiset(b)| == |b|;
    forall x
      ensures x in a <==> x in b
    {
      assert x in a <==> x in multiset(a);
      assert x in b <==> x in multiset(b);
    }
  }

  lemma TailMultiset<T>(a: seq<T>)
    requires a != []
    ensures multiset(a[1..]) == multiset(a) - multiset{a[0]}
  {
    assert a == [a[0]] + a[1..];
  }

  /** The first element of a sorted list is its least, so it is determined. */
  lemma SortedHead<T(!new)>(lt: (T, T) -> bool, a: seq<T>, b: seq<T>, dom: set<T>)
    requires StrictOrderOn(lt, dom) && Within(a, dom) && Within(b, dom)
    requires a != [] && b != [] && a[0] in b && b[0] in a
    requires SortedBy(lt, a) && SortedBy(lt, b)
    ensures a[0] == b[0]
  {
    var i :| 0 <= i < |b| && b[i] == a[0];
    var j :| 0 <= j < |a| && a[j] == b[0];
    assert i == 0 || !lt(b[i], b[0]);
    assert j == 0 || !lt(a[j], a[0]);
  }

  lemma SortedTail<T(!new)>(lt: (T, T) -> bool, a: seq<T>, dom: set<T>)
    requires Within(a, dom) && SortedBy(lt, a) && a != []
    ensures Within(a[1..], dom) && SortedBy(lt, a[1..])
  {}

  /** A strict total order leaves only one sorted arrangement of a collection. */
  lemma {:induction false} SortedUnique<T(!new)>(lt: (T, T) -> bool, a: seq<T>, b: seq<T>, dom: set<T>)
    requires multiset(a) == multiset(b)
    requires StrictOrderOn(lt, dom) && Within(a, dom) && Within(b, dom)
    requires SortedBy(lt, a) && SortedBy(lt, b)
    ensures a == b
  {
    SameElements(a, b);
    if a != [] {
      assert a[0] in a && b[0] in b;
      SortedHead(lt, a, b, dom);
      SortedTail(lt, a, dom);
      SortedTail(lt, b, dom);
      hide SortedBy, Within, StrictOrderOn;
      TailMultiset(a);
      TailMultiset(b);
      SortedUnique(lt, a[1..], b[1..], dom);
      assert a == [a[0]] + a[1..] && b == [b[0]] + b[1..];
    }
  }

  /** Sorting forgets the order of its input. */
  lemma SortByOrderFree<T(!new)>(lt: (T, T) -> bool, a: seq<T>, b: seq<T>, dom: set<T>)
    requires multiset(a) == multiset(b)
    requires StrictOrderOn(lt, dom) && Within(a, dom)
    ensures SortBy(lt, a) == SortBy(lt, b)
  {
    SameElements(a, b);
    assert Within(b, dom) by {
      forall i | 0 <= i < |b|
        ensures b[i] in dom
      {
        assert b[i] in a;
      }
    }
    SortBySorted(lt, a, dom);
    SortBySorted(lt, b, dom);
    SortedUnique(lt, SortBy(lt, a), SortBy(lt, b), dom);
  }

  ghost predicate Distinct<T(!new)>(xs: seq<T>) { forall i, j :: 0 <= i < j < |xs| ==> xs[i] != xs[j] }

  lemma {:induction false} DistinctByCount<T(!new)>(xs: seq<T>)
    ensures Distinct(xs) <==> forall x :: multiset(xs)[x] <= 1
  {
    if xs != [] {
      var front, last := xs[..|xs| - 1], xs[|xs| - 1];
      DistinctByCount(front);
      assert xs == front + [last];
      assert multiset(xs) == multiset(front) + multiset{last};
      assert last in front <==> multiset(front)[last] > 0;
      assert Distinct(xs) <==> Distinct(front) && last !in front;
      if forall x :: multiset(xs)[x] <= 1 {
        forall x
          ensures multiset(front)[x] <= 1
        {
          assert multiset(front)[x] <= multiset(xs)[x];
        }
        assert multiset(xs)[last] == multiset(front)[last] + 1;
      }
    }
  }

  /** Sorting neither adds nor loses elements. */
  lemma SortKeepsDistinct<T(!new)>(lt: (T, T) -> bool, xs: seq<T>)
    requires Distinct(xs)
    ensures Distinct(SortBy(lt, xs))
  {
    DistinctByCount(xs);
    DistinctByCount(SortBy(lt, xs));
  }

  function Map<T, U>(f: T -> U, xs: seq<T>): (r: seq<U>)
    ensures |r| == |xs|
  {
    seq(|xs|, i requires 0 <= i < |xs| => f(xs[i]))
  }

  lemma WithoutOne<T>(xs: seq<T>, j: nat)
    requires j < |xs|
    ensures multiset(xs) == multiset(xs[..j] + xs[j + 1..]) + multiset{xs[j]}
  {
    assert xs == xs[..j] + [xs[j]] + xs[j + 1..];
  }

  lemma OneLess<T>(a: multiset<T>, b: multiset<T>, x: T)
    ensures a + multiset{x} == b + multiset{x} <==> a == b
  {
    assert a + multiset{x} - multiset{x} == a && b + multiset{x} - multiset{x} == b;
  }

  lemma MapWithoutOne<T, U>(f: T -> U, xs: seq<T>, j: nat)
    requires j < |xs|
    ensures multiset(Map(f, xs)) == multiset(Map(f, xs[..j] + xs[j + 1..])) + multiset{f(xs[j])}
  {
    WithoutOne(Map(f, xs), j);
    assert Map(f, xs)[..j] + Map(f, xs)[j + 1..] == Map(f, xs[..j] + xs[j + 1..]);
  }

  /** A function maps rearrangements to rearrangements. */
  lemma {:induction false} MappedAlike<T, U>(f: T -> U, a: seq<T>, b: seq<T>)
    requires multiset(a) == multiset(b)
    ensures multiset(Map(f, a)) == multiset(Map(f, b))
  {
    SameElements(a, b);
    if a != [] {
      hide Map;
      assert a[0] in a;
      var j :| 0 <= j < |b| && b[j] == a[0];
      var tail, rest := a[..0] + a[1..], b[..j] + b[j + 1..];
      WithoutOne(a, 0);
      WithoutOne(b, j);
      OneLess(multiset(tail), multiset(rest), a[0]);
      MappedAlike(f, tail, rest);
      MapWithoutOne(f, a, 0);
      MapWithoutOne(f, b, j);
    }
  }
}
