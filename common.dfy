/** Values shared by every part of the model: optional values, results that
    carry the error message the source throws, and bytes. */
module Common {

  /** An optional value (JavaScript `undefined`/`null`, Python `None`). */
  datatype Option<T> = None | Some(value: T)

  /** The outcome of an operation that can throw: the value, or the error
      message of the exception the source raises. */
  datatype Result<T> = Ok(value: T) | Err(msg: string)

  /** One octet of a byte buffer (`Uint8Array`, Python `bytes`). */
  newtype byte = b: int | 0 <= b < 256

  /** HTTP `res.ok` in fetch: a status in 200..299. */
  predicate IsOkStatus(status: int) { 200 <= status <= 299 }

  /** `n` copies of `x`. */
  function Repeat<T>(x: T, n: nat): (r: seq<T>)
    ensures |r| == n && forall i :: 0 <= i < n ==> r[i] == x
  {
    if n == 0 then [] else Repeat(x, n - 1) + [x]
  }

  /** `f(0)`, ..., `f(n - 1)` in order. */
  function Tabulate<T>(n: nat, f: nat -> T): (r: seq<T>)
    ensures |r| == n && forall i :: 0 <= i < n ==> r[i] == f(i)
  {
    seq(n, i requires 0 <= i < n => f(i))
  }

  lemma TabulateSnoc<T>(n: nat, f: nat -> T)
    ensures Tabulate(n + 1, f) == Tabulate(n, f) + [f(n)]
  {
  }

  /** `Promise.all` over already-settled results, read in index order: every
      value in order when all succeeded, otherwise the first failure. */
  function AllOrNothing<T>(rs: seq<Result<T>>): (r: Result<seq<T>>)
    ensures r.Ok? <==> forall i :: 0 <= i < |rs| ==> rs[i].Ok?
    ensures r.Ok? ==> |r.value| == |rs| && forall i :: 0 <= i < |rs| ==> r.value[i] == rs[i].value
    ensures r.Err? ==> exists i :: 0 <= i < |rs| && rs[i] == Err(r.msg) && forall j :: 0 <= j < i ==> rs[j].Ok?
  {
    if rs == [] then Ok([])
    else if rs[0].Err? then Err(rs[0].msg)
    else
      var rest := AllOrNothing(rs[1..]);
      if rest.Err? then
        assert forall j :: 1 <= j < |rs| ==> rs[j] == rs[1..][j - 1];
        rest
      else
        Ok([rs[0].value] + rest.value)
  }

  /** Reading one more settled result. */
  lemma {:induction false} AllOrNothingSnoc<T>(rs: seq<Result<T>>, r: Result<T>)
    ensures AllOrNothing(rs + [r]) ==
      if AllOrNothing(rs).Err? then AllOrNothing(rs)
      else if r.Err? then Err(r.msg)
      else Ok(AllOrNothing(rs).value + [r.value])
  {
    if rs == [] {
      assert [] + [r] == [r];
      assert [r][1..] == [];
      if r.Ok? {
        assert AllOrNothing([r]) == Ok([r.value] + []);
        assert [r.value] + [] == [] + [r.value];
      }
    } else {
      var xs := rs + [r];
      assert xs[0] == rs[0];
      assert xs[1..] == rs[1..] + [r];
      AllOrNothingSnoc(rs[1..], r);
      if rs[0].Ok? {
        var tail := AllOrNothing(rs[1..]);
        if tail.Ok? && r.Ok? {
          assert AllOrNothing(xs) == Ok([rs[0].value] + (tail.value + [r.value]));
          assert [rs[0].value] + (tail.value + [r.value]) == ([rs[0].value] + tail.value) + [r.value];
        }
      }
    }
  }

  /** The first failure decides: what follows it is never looked at. */
  lemma AllOrNothingFirstErr<T>(rs: seq<Result<T>>, i: nat)
    requires i < |rs| && rs[i].Err?
    requires forall j :: 0 <= j < i ==> rs[j].Ok?
    ensures AllOrNothing(rs) == Err(rs[i].msg)
  {
    var r := AllOrNothing(rs);
    var k :| 0 <= k < |rs| && rs[k] == Err(r.msg) && forall j :: 0 <= j < k ==> rs[j].Ok?;
    assert k == i;
  }

  /** When every result succeeded, the values are exactly the ones read. */
  lemma AllOrNothingAllOk<T>(rs: seq<Result<T>>, vs: seq<T>)
    requires |vs| == |rs| && forall j :: 0 <= j < |rs| ==> rs[j] == Ok(vs[j])
    ensures AllOrNothing(rs) == Ok(vs)
  {
    var r := AllOrNothing(rs);
    assert forall j :: 0 <= j < |rs| ==> rs[j].Ok?;
    assert r.Ok?;
    assert |r.value| == |vs|;
    assert forall j :: 0 <= j < |rs| ==> r.value[j] == vs[j];
    assert r.value == vs;
  }

  /** The last `n` elements of `s` (`s[-n:]`), or all of them. */
  function LastN<T>(s: seq<T>, n: nat): (r: seq<T>)
    ensures |r| == if |s| < n then |s| else n
    ensures r == s[|s| - |r|..]
  {
    if |s| <= n then s else s[|s| - n..]
  }

  ghost predicate NoDuplicates<T>(s: seq<T>) {
    forall i, j :: 0 <= i < j < |s| ==> s[i] != s[j]
  }

  lemma NoDuplicatesSuffix<T>(s: seq<T>, k: nat)
    requires NoDuplicates(s) && k <= |s|
    ensures NoDuplicates(s[k..])
  {
    assert forall i :: 0 <= i < |s| - k ==> s[k..][i] == s[k + i];
  }

  /** How many calls a sequential loop makes over `rs`: up to and including
      the first failure, or all of them. */
  function CallCount<T>(rs: seq<Result<T>>): (k: nat)
    ensures k <= |rs|
    ensures k < |rs| ==> k > 0 && rs[k - 1].Err?
    ensures forall j :: 0 <= j < k - 1 ==> rs[j].Ok?
    ensures AllOrNothing(rs).Ok? ==> k == |rs|
    ensures AllOrNothing(rs).Err? ==> k > 0 && rs[k - 1] == Err(AllOrNothing(rs).msg)
  {
    if rs == [] then 0
    else if rs[0].Err? then 1
    else 1 + CallCount(rs[1..])
  }

  lemma CallCountAtFirstErr<T>(rs: seq<Result<T>>, i: nat)
    requires i < |rs| && rs[i].Err?
    requires forall j :: 0 <= j < i ==> rs[j].Ok?
    ensures CallCount(rs) == i + 1
  {
  }

  lemma CallCountAllOk<T>(rs: seq<Result<T>>)
    requires forall j :: 0 <= j < |rs| ==> rs[j].Ok?
    ensures CallCount(rs) == |rs|
  {
  }
}
