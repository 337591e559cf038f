/** Properties every line of a batch must have, stated once for any
    per-line test `p`: how they split into the first line and the rest, and
    where the first line without the property sits. */
module Lines {

  /** Every line before index `n` satisfies `p`. */
  ghost predicate AllBefore(lines: seq<string>, n: int, p: string -> bool)
  {
    forall i :: 0 <= i < n && i < |lines| ==> p(lines[i])
  }

  /** Every line satisfies `p`. */
  ghost predicate All(lines: seq<string>, p: string -> bool)
  {
    AllBefore(lines, |lines|, p)
  }

  /** Line `i` is the first line that fails `p`. */
  ghost predicate FirstFailing(lines: seq<string>, p: string -> bool, i: int)
  {
    0 <= i < |lines| && !p(lines[i]) && AllBefore(lines, i, p)
  }

  /** A prefix property splits into the first line and a shorter prefix of the rest. */
  lemma AllBeforeShift(lines: seq<string>, n: nat, p: string -> bool)
    requires lines != [] && n < |lines|
    ensures AllBefore(lines, n + 1, p) <==> p(lines[0]) && AllBefore(lines[1..], n, p)
  {
    var rest := lines[1..];
    if p(lines[0]) && AllBefore(rest, n, p) {
      forall j | 0 < j < n + 1
        ensures p(lines[j])
      {
        assert lines[j] == rest[j - 1];
      }
    }
    if AllBefore(lines, n + 1, p) {
      forall j | 0 <= j < n
        ensures p(rest[j])
      {
        assert rest[j] == lines[j + 1];
      }
    }
  }

  /** The whole-batch property splits into the first line and the rest. */
  lemma AllShift(lines: seq<string>, p: string -> bool)
    requires lines != []
    ensures All(lines, p) <==> p(lines[0]) && All(lines[1..], p)
  {
    AllBeforeShift(lines, |lines| - 1, p);
  }

  /** The index of the first line that fails `p`. */
  ghost function FirstFailure(lines: seq<string>, p: string -> bool): (i: nat)
    requires !All(lines, p)
    ensures FirstFailing(lines, p, i)
    ensures forall j :: 0 <= j < i ==> p(lines[j])
    decreases |lines|
  {
    if !p(lines[0]) then 0
    else
      AllShift(lines, p);
      var i := FirstFailure(lines[1..], p);
      AllBeforeShift(lines, i, p);
      assert lines[i + 1] == lines[1..][i];
      i + 1
  }

  /** Past the first line, the first failure of the batch is the first
      failure of the rest, one place earlier. */
  lemma FirstFailingShift(lines: seq<string>, p: string -> bool, i: int)
    requires FirstFailing(lines, p, i) && i > 0
    ensures p(lines[0]) && FirstFailing(lines[1..], p, i - 1)
  {
    AllBeforeShift(lines, i - 1, p);
    assert lines[1..][i - 1] == lines[i];
  }
}
