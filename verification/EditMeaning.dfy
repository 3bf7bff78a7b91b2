/** What a sequence edit accepts and what it makes of every step row, in terms of the request as it arrived. */
module EditMeaning {
  import opened Common
  import opened Messages
  import opened Steps
  import opened SequenceEdits
  import opened SequenceService
  import Subjects
  import SubjectMeaning

  /** The requested step: its number, its delay, which is 3 days where none is given, and its flag, which is on where
      none is given and off for a null. */
  predicate Requests(raw: RawStep, number: int, delayDays: int, active: bool) {
    && raw.number == Some(number)
    && delayDays == (if raw.delayDays.Some? then raw.delayDays.value else 3)
    && (active <==> raw.active == Missing || raw.active == Given(true))
  }

  /** The row has the requested columns; its texts are the requested ones without white space around them. */
  ghost predicate HasRequested(row: StepRow, raw: RawStep) {
    && Requests(raw, row.number, row.delayDays, row.active)
    && Trimmed(raw.subject, row.subject) && Trimmed(raw.body, row.body)
  }

  ghost predicate IsBlank(s: string) { forall i :: 0 <= i < |s| ==> Subjects.IsSpace(s[i]) }

  ghost predicate Around(before: string, part: string, after: string, s: string) {
    s == before + part + after && IsBlank(before) && IsBlank(after)
  }

  /** `part` is `s` without the white space at its ends. */
  ghost predicate Trimmed(s: string, part: string) {
    && (exists before, after :: Around(before, part, after, s))
    && (part != "" ==> !Subjects.IsSpace(part[0]) && !Subjects.IsSpace(part[|part| - 1]))
  }

  lemma {:induction false} SkippedIsBlank(s: string, i: nat, k: nat)
    requires i <= |s| && i <= k < Subjects.SkipSpace(s, i)
    ensures Subjects.IsSpace(s[k])
    decreases |s| - i
  {
    if i < k {
      SkippedIsBlank(s, i + 1, k);
    }
  }

  lemma {:induction false} TrimmedEndIsBlank(s: string, j: nat, k: nat)
    requires j <= |s| && Subjects.TrimEnd(s, j) <= k < j
    ensures Subjects.IsSpace(s[k])
    decreases j
  {
    if k < j - 1 {
      TrimmedEndIsBlank(s, j - 1, k);
    }
  }

  lemma StripMeans(s: string)
    ensures Trimmed(s, Subjects.Strip(s))
  {
    hide Subjects.IsSpace;
    var end := Subjects.TrimEnd(s, |s|);
    var start := Min(Subjects.SkipSpace(s, 0), end);
    forall k | 0 <= k < start
      ensures Subjects.IsSpace(s[k])
    {
      SkippedIsBlank(s, 0, k);
    }
    forall k | end <= k < |s|
      ensures Subjects.IsSpace(s[k])
    {
      TrimmedEndIsBlank(s, |s|, k);
    }
    hide Subjects.SkipSpace, Subjects.TrimEnd;
    CutMeans(s, start, end);
  }

  lemma CutMeans(s: string, start: nat, end: nat)
    requires start <= end <= |s| && (start < end ==> !Subjects.IsSpace(s[start]) && !Subjects.IsSpace(s[end - 1]))
    requires forall k :: 0 <= k < start || end <= k < |s| ==> Subjects.IsSpace(s[k])
    ensures Trimmed(s, s[start..end])
  {
    hide Subjects.IsSpace;
    var before, after := s[..start], s[end..];
    assert s == before + s[start..end] + after;
    assert forall k :: 0 <= k < |after| ==> after[k] == s[end + k];
    assert Around(before, s[start..end], after, s);
  }

  lemma ContentMeans(raw: RawStep, row: StepRow)
    requires raw.number.Some? && row.number == NumberOf(raw) && Holds(row, ContentOf(raw))
    ensures HasRequested(row, raw)
  {
    StripMeans(raw.subject);
    StripMeans(raw.body);
  }

  /** A request is accepted if and only if its numbers are positive and different and its delays at least a day. */
  lemma AcceptedMeans(raws: seq<RawStep>)
    ensures Accepted(raws)
            <==> && (forall i :: 0 <= i < |raws| ==> raws[i].number.Some? && raws[i].number.value > 0)
                 && (forall i, j :: 0 <= i < j < |raws| ==> raws[i].number != raws[j].number)
                 && (forall i :: 0 <= i < |raws| && raws[i].delayDays.Some? ==> raws[i].delayDays.value >= 1)
  {
    hide Subjects.Strip;
    if Accepted(raws) {
      forall i | 0 <= i < |raws|
        ensures raws[i].number.Some? && raws[i].number.value > 0 && (raws[i].delayDays.Some? ==> raws[i].delayDays.value >= 1)
        ensures forall j :: 0 <= j < i ==> raws[j].number != raws[i].number
      {
        assert !Refused(raws, i);
        assert forall j :: 0 <= j < i ==> NumberOf(raws[j]) != NumberOf(raws[i]);
      }
    }
  }

  /** The reply to a refused request names what is wrong with its first bad step. */
  lemma RefusedMeans(raws: seq<RawStep>, i: nat, problem: Problem)
    requires RefusedAt(raws, i, problem)
    ensures problem == BadNumber || problem == BadDelay
    ensures problem == BadNumber <==>
              raws[i].number.None? || raws[i].number.value <= 0 || exists j :: 0 <= j < i && raws[j].number == raws[i].number
    ensures Accepted(raws[..i])
  {
    hide Subjects.Strip;
    forall j: nat | j < i
      ensures !Refused(raws[..i], j)
    {
      SamePrefix(raws, i, j);
    }
    if NumberOf(raws[i]) > 0 && NumberRefused(raws, i) {
      var j :| 0 <= j < i && NumberOf(raws[j]) == NumberOf(raws[i]);
      assert raws[j].number == raws[i].number;
    }
  }

  lemma SamePrefix(raws: seq<RawStep>, i: nat, j: nat)
    requires j < i <= |raws|
    ensures Refused(raws[..i], j) <==> Refused(raws, j)
  {
    assert forall k :: 0 <= k <= j ==> raws[..i][k] == raws[k];
  }

  /** Some message refers to the step row. */
  ghost predicate InUse(messages: Table, id: int) { exists m :: m in messages && messages[m].stepId == Some(id) }

  /** What an accepted request makes of the rows there were: a row of the campaign whose number is requested stays under
      its id, with the requested columns; another one that messages refer to is switched off and otherwise as it was;
      any other is gone. Rows of other campaigns stay as they were. */
  lemma EditMeans(
      raws: seq<RawStep>, request: Request, steps: StepTable, nextId: int, messages: Table, campaign: int, steps': StepTable, id: int)
    requires Accepted(raws) && Asks(raws, request) && Replaced(steps, nextId, messages, campaign, request, steps')
    requires id in steps
    ensures steps[id].campaign != campaign ==> id in steps' && steps'[id] == steps[id]
    ensures forall i :: 0 <= i < |raws| && steps[id].campaign == campaign && raws[i].number == Some(steps[id].number) ==>
              id in steps' && steps'[id].campaign == campaign && HasRequested(steps'[id], raws[i])
    ensures steps[id].campaign == campaign && (forall i :: 0 <= i < |raws| ==> raws[i].number != Some(steps[id].number)) ==>
              (id in steps' <==> InUse(messages, id)) && (id in steps' ==> steps'[id] == steps[id].(active := false))
  {
    hide HasRequested, Subjects.Strip, ContentOf;
    assert IsReferenced(messages, id) <==> InUse(messages, id);
    forall i | 0 <= i < |raws| && steps[id].campaign == campaign && raws[i].number == Some(steps[id].number)
      ensures id in steps' && steps'[id].campaign == campaign && HasRequested(steps'[id], raws[i])
    {
      RequestedRow(raws, request, i);
      ContentMeans(raws[i], steps'[id]);
    }
    if steps[id].number in request {
      var i :| 0 <= i < |raws| && NumberOf(raws[i]) == steps[id].number;
      RequestedRow(raws, request, i);
    }
  }

  lemma RequestedRow(raws: seq<RawStep>, request: Request, i: nat)
    requires Accepted(raws) && Asks(raws, request) && i < |raws|
    ensures raws[i].number == Some(NumberOf(raws[i])) && NumberOf(raws[i]) in request
    ensures request[NumberOf(raws[i])] == ContentOf(raws[i])
  {
    assert !Refused(raws, i);
  }

  /** Afterwards the campaign has exactly one row for every requested step, with the requested columns, and no new row
      for anything else. */
  lemma EditAdds(
      raws: seq<RawStep>, request: Request, steps: StepTable, nextId: int, messages: Table, campaign: int, steps': StepTable, i: nat)
    requires Accepted(raws) && Asks(raws, request) && Replaced(steps, nextId, messages, campaign, request, steps')
    requires i < |raws|
    ensures exists id :: id in steps' && steps'[id].campaign == campaign && HasRequested(steps'[id], raws[i])
    ensures forall a, b :: a in steps' && b in steps' && steps'[a].campaign == campaign && SameStep(steps'[a], steps'[b]) ==>
              a == b
    ensures forall id :: id in steps' && id !in steps ==>
              steps'[id].campaign == campaign && exists j :: 0 <= j < |raws| && raws[j].number == Some(steps'[id].number)
  {
    hide HasRequested, Subjects.Strip, ContentOf, IsReferenced;
    RequestedRow(raws, request, i);
    assert HasNumber(steps', campaign, NumberOf(raws[i]));
    var id :| id in steps' && steps'[id].campaign == campaign && steps'[id].number == NumberOf(raws[i]);
    ActiveAreRequested(steps, nextId, messages, campaign, request, steps', NumberOf(raws[i]));
    ContentMeans(raws[i], steps'[id]);
    forall id | id in steps' && id !in steps
      ensures exists j :: 0 <= j < |raws| && raws[j].number == Some(steps'[id].number)
    {
      var j :| 0 <= j < |raws| && NumberOf(raws[j]) == steps'[id].number;
      RequestedRow(raws, request, j);
    }
  }
}
