/** Result types, clock units, sums and finite-set facts shared by every component. */
module Common {

  datatype Option<+T> = None | Some(value: T)

  // The HTTP exceptions the services throw.
  datatype ApiError = NotFound | Conflict | BadRequest | Forbidden | Unauthorized | TooManyRequests | Internal

  datatype Result<+T> = Ok(value: T) | Err(error: ApiError)

  // Instants and spans are integer milliseconds.
  const MINUTE: int := 60_000
  const HOUR: int := 60 * MINUTE
  const DAY: int := 24 * HOUR

  function Max(a: int, b: int): int { if a >= b then a else b }

  function Min(a: int, b: int): int { if a <= b then a else b }

  // Left fold, the shape of the source's `reduce((s, x) => s + f(x), 0)`.
  function SumOf<T>(s: seq<T>, f: T -> int): int {
    if s == [] then 0 else SumOf(s[..|s| - 1], f) + f(s[|s| - 1])
  }

  lemma SumSnoc<T>(s: seq<T>, x: T, f: T -> int)
    ensures SumOf(s + [x], f) == SumOf(s, f) + f(x)
  {
    assert (s + [x])[..|s|] == s;
  }

  lemma {:induction false} SumUpdate<T>(s: seq<T>, i: nat, x: T, f: T -> int)
    requires i < |s|
    ensures SumOf(s[i := x], f) == SumOf(s, f) - f(s[i]) + f(x)
  {
    var n := |s| - 1;
    if i == n {
      assert s[i := x][..n] == s[..n];
    } else {
      assert s[i := x][..n] == s[..n][i := x];
      SumUpdate(s[..n], i, x, f);
    }
  }

  // Sum of the values of a finite map.
  ghost function SumValues<K>(m: map<K, int>): int
    decreases |m|
  {
    if m == map[] then 0
    else
      var k :| k in m;
      m[k] + SumValues(m - {k})
  }

  // The order in which keys are picked does not matter.
  lemma {:induction false} SumValuesPick<K>(m: map<K, int>, k: K)
    requires k in m
    ensures SumValues(m) == m[k] + SumValues(m - {k})
    decreases |m|
  {
    var j :| j in m && SumValues(m) == m[j] + SumValues(m - {j});
    if j != k {
      SumValuesPick(m - {j}, k);
      SumValuesPick(m - {k}, j);
      assert m - {j} - {k} == m - {k} - {j};
    }
  }

  lemma SumValuesInsert<K>(m: map<K, int>, k: K, v: int)
    requires k !in m
    ensures SumValues(m[k := v]) == SumValues(m) + v
  {
    SumValuesPick(m[k := v], k);
    assert m[k := v] - {k} == m;
  }

  ghost predicate NoDup<T(!new)>(s: seq<T>) {
    forall i, j :: 0 <= i < j < |s| ==> s[i] != s[j]
  }

  lemma NoDupSnoc<T(!new)>(s: seq<T>, x: T)
    requires NoDup(s) && x !in s
    ensures NoDup(s + [x])
  {
  }

  // ---- finite sets of rooms ----

  function Rooms(k: nat): (s: set<nat>)
    ensures |s| == k
    ensures forall r: nat :: r in s <==> r < k
  {
    if k == 0 then {} else Rooms(k - 1) + {k - 1}
  }

  function Image(s: set<nat>, f: map<nat, nat>): (im: set<nat>)
    requires s <= f.Keys
    ensures forall x :: x in s ==> f[x] in im
  {
    set x | x in s :: f[x]
  }

  lemma Preimage(s: set<nat>, f: map<nat, nat>, r: nat) returns (x: nat)
    requires s <= f.Keys && r in Image(s, f)
    ensures x in s && f[x] == r
  {
    x :| x in s && f[x] == r;
  }

  ghost predicate InjectiveOn(s: set<nat>, f: map<nat, nat>)
    requires s <= f.Keys
  {
    forall x, y :: x in s && y in s && x != y ==> f[x] != f[y]
  }

  lemma {:induction false} ImageSize(s: set<nat>, f: map<nat, nat>)
    requires s <= f.Keys
    ensures |Image(s, f)| <= |s|
    ensures InjectiveOn(s, f) ==> |Image(s, f)| == |s|
    decreases |s|
  {
    if s != {} {
      var x :| x in s;
      var rest := s - {x};
      ImageSize(rest, f);
      assert Image(s, f) == Image(rest, f) + {f[x]};
      if InjectiveOn(s, f) {
        assert InjectiveOn(rest, f);
        assert f[x] !in Image(rest, f);
      }
    }
  }

  lemma {:induction false} SubsetSize<T>(a: set<T>, b: set<T>)
    requires a <= b
    ensures |a| <= |b|
    ensures |a| == |b| ==> a == b
    decreases |b|
  {
    if a != {} {
      var x :| x in a;
      SubsetSize(a - {x}, b - {x});
      assert a == (a - {x}) + {x} && b == (b - {x}) + {x};
    } else if b != {} {
      var x :| x in b;
      assert |b| == |b - {x}| + 1;
    }
  }
}
