/** Small datatypes and sequence functions that several parts of the model share. */
module Common {
  datatype Option<+T> = None | Some(value: T)

  datatype Result<+T, +E> = Ok(value: T) | Err(error: E)

  function Min(a: int, b: int): int {
    if a <= b then a else b
  }

  function Max(a: int, b: int): int {
    if a <= b then b else a
  }

  function MinReal(a: real, b: real): real {
    if a <= b then a else b
  }

  function MaxReal(a: real, b: real): real {
    if a <= b then b else a
  }

  function Abs(a: real): real {
    if a < 0.0 then -a else a
  }

  function Power10(n: nat): (r: nat)
    ensures r > 0
  {
    if n == 0 then 1 else 10 * Power10(n - 1)
  }

  function Largest(values: seq<real>): (m: real)
    requires values != []
    ensures m in values && forall v :: v in values ==> v <= m
  {
    if |values| == 1 then values[0]
    else
      assert values == [values[0]] + values[1..];
      MaxReal(values[0], Largest(values[1..]))
  }

  function Smallest(values: seq<real>): (m: real)
    requires values != []
    ensures m in values && forall v :: v in values ==> m <= v
  {
    if |values| == 1 then values[0]
    else
      assert values == [values[0]] + values[1..];
      MinReal(values[0], Smallest(values[1..]))
  }

  predicate Distinct<T(==)>(s: seq<T>) {
    forall i, j :: 0 <= i < j < |s| ==> s[i] != s[j]
  }

  lemma SplitAt<T>(s: seq<T>, k: nat)
    requires k < |s|
    ensures s == s[..k] + ([s[k]] + s[k + 1..])
  {
  }

  // A list without its element k.
  lemma OneLess<T>(s: seq<T>, k: nat)
    requires k < |s|
    ensures multiset(s[..k] + s[k + 1..]) == multiset(s) - multiset{s[k]}
  {
    SplitAt(s, k);
    assert multiset(s) == multiset(s[..k]) + (multiset{s[k]} + multiset(s[k + 1..]));
  }

  lemma TailOf<T>(x: T, rest: seq<T>)
    ensures ([x] + rest)[1..] == rest
  {
  }

  lemma ConcatTail<T>(a: seq<T>, b: seq<T>)
    requires a != []
    ensures (a + b)[0] == a[0] && (a + b)[1..] == a[1..] + b
  {
  }

  lemma Associative<T>(a: seq<T>, b: seq<T>, c: seq<T>)
    ensures a + (b + c) == (a + b) + c
  {
  }

  // One more element of a list gone through.
  lemma TakeStep<T>(s: seq<T>, i: nat)
    requires i < |s|
    ensures s[..i + 1][..i] == s[..i] && s[..i + 1][i] == s[i]
    ensures s[..i + 1] == s[..i] + [s[i]]
  {
  }

  lemma TakeAll<T>(s: seq<T>)
    ensures s[..|s|] == s
  {
  }

  lemma LastOfPart<T>(s: seq<T>, low: nat)
    requires low < |s|
    ensures |s[low..]| == |s| - low && s[low..][|s| - low - 1] == s[|s| - 1]
  {
  }

  lemma DropDrop<T>(s: seq<T>, a: nat, b: nat)
    requires a + b <= |s|
    ensures s[a..][b..] == s[a + b..]
  {
  }

  lemma DropTake<T>(s: seq<T>, low: nat, most: nat)
    requires low + most <= |s|
    ensures s[low..][..most] == s[low..low + most]
  {
  }

  lemma ToTheEnd<T>(s: seq<T>, low: nat)
    requires low <= |s|
    ensures s[low..] == s[low..|s|]
  {
  }

  // All but the first and the last.
  lemma InitOfTail<T>(s: seq<T>)
    requires |s| > 1
    ensures s[..|s| - 1][1..] == s[1..][..|s[1..]| - 1] && s[1..][|s[1..]| - 1] == s[|s| - 1]
  {
  }

  // Dropping from all but the last, and putting the last back.
  lemma DropInit<T>(s: seq<T>, k: nat)
    requires k < |s|
    ensures s[..|s| - 1][k..] + [s[|s| - 1]] == s[k..]
  {
  }

  // Python's round for floats without the rounding error: halves go to the even neighbour.
  function Round(x: real): int {
    var low := x.Floor;
    var rest := x - low as real;
    if rest < 0.5 then low
    else if rest > 0.5 then low + 1
    else if low % 2 == 0 then low
    else low + 1
  }

  // The nearest whole number, the even one of two.
  lemma RoundNearest(x: real)
    ensures -0.5 <= Round(x) as real - x <= 0.5
    ensures Round(x) as real - x == 0.5 || Round(x) as real - x == -0.5 ==> Round(x) % 2 == 0
  {
  }

  // -- sorted lists of strings without repeats ----------------------------------------

  // Python's order of strings: by the first character that differs, the shorter first.
  predicate Before(a: string, b: string) {
    if |b| == 0 then false
    else if |a| == 0 then true
    else if a[0] != b[0] then a[0] < b[0]
    else Before(a[1..], b[1..])
  }

  lemma {:induction false} BeforeTotal(a: string, b: string)
    ensures a == b || Before(a, b) || Before(b, a)
  {
    if |a| > 0 && |b| > 0 && a[0] == b[0] {
      BeforeTotal(a[1..], b[1..]);
      assert a == [a[0]] + a[1..];
      assert b == [b[0]] + b[1..];
    }
  }

  lemma {:induction false} BeforeIsStrict(a: string, b: string)
    requires Before(a, b)
    ensures a != b && !Before(b, a)
  {
    if |a| > 0 && a[0] == b[0] {
      BeforeIsStrict(a[1..], b[1..]);
    }
  }

  lemma {:induction false} BeforeTransitive(a: string, b: string, c: string)
    requires Before(a, b) && Before(b, c)
    ensures Before(a, c)
  {
    if |a| > 0 && a[0] == b[0] && b[0] == c[0] {
      BeforeTransitive(a[1..], b[1..], c[1..]);
    }
  }

  predicate Ascending(s: seq<string>) {
    forall i, j :: 0 <= i < j < |s| ==> Before(s[i], s[j])
  }

  function InsertSorted(s: seq<string>, x: string): (r: seq<string>) {
    if s == [] || Before(x, s[0]) then [x] + s
    else if s[0] == x then s
    else [s[0]] + InsertSorted(s[1..], x)
  }

  // Without repeats, in order.
  function SortedSet(items: seq<string>): seq<string> {
    if items == [] then [] else InsertSorted(SortedSet(items[1..]), items[0])
  }

  lemma {:induction false} InsertSortedCorrect(s: seq<string>, x: string)
    requires Ascending(s)
    ensures Ascending(InsertSorted(s, x))
    ensures forall y :: y in InsertSorted(s, x) <==> y == x || y in s
  {
    if s == [] {
    } else if Before(x, s[0]) {
      forall j | 0 <= j < |s| ensures Before(x, s[j]) {
        if j > 0 { BeforeTransitive(x, s[0], s[j]); }
      }
    } else if s[0] != x {
      BeforeTotal(s[0], x);
      InsertSortedCorrect(s[1..], x);
      var rest := InsertSorted(s[1..], x);
      forall j | 0 <= j < |rest| ensures Before(s[0], rest[j]) {
        assert rest[j] in rest;
      }
      assert s == [s[0]] + s[1..];
    }
  }

  lemma {:induction false} SortedSetCorrect(items: seq<string>)
    ensures Ascending(SortedSet(items)) && Distinct(SortedSet(items))
    ensures forall y :: y in SortedSet(items) <==> y in items
  {
    if items != [] {
      SortedSetCorrect(items[1..]);
      InsertSortedCorrect(SortedSet(items[1..]), items[0]);
      assert items == [items[0]] + items[1..];
    }
    var s := SortedSet(items);
    forall i, j | 0 <= i < j < |s| ensures s[i] != s[j] {
      BeforeIsStrict(s[i], s[j]);
    }
  }
}
