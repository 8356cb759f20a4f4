/** The running-minimum choice both runners make when they look for the
    next queued transcription (src/rest/runner.py and
    whispercpp_runner/src/data_handler.py): among the eligible status
    records, in listing order, keep the one whose start time is strictly
    earlier than every one kept before. */
module OldestQuery {
  import opened Wrappers
  import opened JsonValue

  /** An eligible record: its parsed start time and its `transcription_id`
      (whatever JSON value that is). */
  datatype Candidate = Candidate(time: int, id: Value)

  /** The index the running-minimum loop holds after seeing all of `c`
      (`None` entries are records the loop skips). */
  function Pick(c: seq<Option<Candidate>>): (r: Option<nat>)
    ensures r.Some? ==> r.value < |c| && c[r.value].Some?
  {
    if c == [] then None
    else
      var n := |c| - 1;
      var p := Pick(c[..n]);
      if c[n].Some? && (p.None? || c[n].value.time < c[p.value].value.time) then Some(n) else p
  }

  /** Record k has the earliest start time, and every record before it
      starts strictly later: the first of the earliest. */
  predicate Earliest(c: seq<Option<Candidate>>, k: nat) {
    k < |c| && c[k].Some? &&
    (forall j :: 0 <= j < |c| && c[j].Some? ==> c[k].value.time <= c[j].value.time) &&
    (forall j :: 0 <= j < k && c[j].Some? ==> c[k].value.time < c[j].value.time)
  }

  /** The loop finds nothing exactly when no record is eligible, and what it
      finds is the first of the earliest. */
  lemma {:induction false} PickIsEarliest(c: seq<Option<Candidate>>)
    ensures Pick(c).None? <==> forall j :: 0 <= j < |c| ==> c[j].None?
    ensures Pick(c).Some? ==> Earliest(c, Pick(c).value)
  {
    if c != [] {
      var n := |c| - 1;
      PickIsEarliest(c[..n]);
      var p := Pick(c[..n]);
      assert forall j :: 0 <= j < n ==> c[..n][j] == c[j];
      if p.Some? {
        assert Earliest(c[..n], p.value);
      }
    }
  }

  /** There is at most one first-of-the-earliest record. */
  lemma EarliestUnique(c: seq<Option<Candidate>>, k1: nat, k2: nat)
    requires Earliest(c, k1) && Earliest(c, k2)
    ensures k1 == k2
  {
  }

  /** What both lookups return: the kept record's id when it is truthy,
      otherwise the string "None". */
  function Answer(c: seq<Option<Candidate>>): Value {
    var p := Pick(c);
    if p.Some? && Truthy(c[p.value].value.id) then c[p.value].value.id else Str("None")
  }

  /** The answer is "None" when no record is eligible, and otherwise the id
      of the first record with the earliest start time (or "None" if that
      id is not truthy). */
  lemma AnswerIsEarliest(c: seq<Option<Candidate>>)
    ensures (forall j :: 0 <= j < |c| ==> c[j].None?) ==> Answer(c) == Str("None")
    ensures forall k: nat :: Earliest(c, k) ==>
      Answer(c) == if Truthy(c[k].value.id) then c[k].value.id else Str("None")
  {
    PickIsEarliest(c);
    forall k: nat | Earliest(c, k)
      ensures Pick(c) == Some(k)
    {
      EarliestUnique(c, k, Pick(c).value);
    }
  }

  /** One step of the running minimum, in the form the loops use. */
  lemma PickStep(c: seq<Option<Candidate>>, i: nat)
    requires i < |c|
    ensures Pick(c[..i + 1]) ==
      if c[i].Some? && (Pick(c[..i]).None? || c[i].value.time < c[Pick(c[..i]).value].value.time)
      then Some(i) else Pick(c[..i])
  {
    assert c[..i + 1][..i] == c[..i];
  }
}
