/** When a Kubeflow TrainJob has ended and how long it ran. */
module TrainJob {
  import opened Options
  import Calendar

  /** The condition types that matter; their values are compared exactly, the status ignoring case. */
  datatype ConditionType = Complete | Succeeded | Failed | OtherType

  /** A status condition; time is None when it is missing, unreadable or Go's zero time. */
  datatype Condition = Condition(typ: ConditionType, status: string, time: Option<int>)

  /** Times are in nanoseconds; startTime and completionTime are None when missing or unreadable. */
  datatype JobStatus = JobStatus(
    conditions: seq<Condition>,
    startTime: Option<int>,
    completionTime: Option<int>)

  function Lower(c: char): char {
    if 'A' <= c <= 'Z' then (c as int + 32) as char else c
  }

  /** strings.EqualFold(s, "true") */
  predicate FoldsToTrue(s: string) {
    |s| == 4 && Lower(s[0]) == 't' && Lower(s[1]) == 'r' && Lower(s[2]) == 'u' && Lower(s[3]) == 'e'
  }

  /** "true" in any mixture of upper and lower case. */
  lemma FoldsToTrueIff(s: string)
    ensures FoldsToTrue(s) <==>
            |s| == 4 && s[0] in {'t', 'T'} && s[1] in {'r', 'R'} && s[2] in {'u', 'U'} && s[3] in {'e', 'E'}
  {
  }

  predicate IsTerminal(c: Condition) {
    FoldsToTrue(c.status) && !c.typ.OtherType?
  }

  method TerminalState(conditions: seq<Condition>) returns (complete: bool, failed: bool)
    ensures complete <==> exists c :: c in conditions && IsTerminal(c) && !c.typ.Failed?
    ensures failed <==> exists c :: c in conditions && IsTerminal(c) && c.typ.Failed?
  {
    complete, failed := false, false;
    for i := 0 to |conditions|
      invariant complete <==> exists c :: c in conditions[..i] && IsTerminal(c) && !c.typ.Failed?
      invariant failed <==> exists c :: c in conditions[..i] && IsTerminal(c) && c.typ.Failed?
    {
      var c := conditions[i];
      assert conditions[..i + 1] == conditions[..i] + [c];
      assert forall d :: d in conditions[..i + 1] <==> d in conditions[..i] || d == c;
      if !FoldsToTrue(c.status) {
        continue;
      }
      match c.typ {
        case Complete | Succeeded => complete := true;
        case Failed => failed := true;
        case OtherType =>
      }
    }
    assert conditions[..|conditions|] == conditions;
  }

  predicate HasEnded(conditions: seq<Condition>) {
    exists c :: c in conditions && IsTerminal(c)
  }

  predicate Timed(c: Condition) {
    c.time.Some?
  }

  /** t is the earliest of all readable times of the conditions. */
  ghost predicate IsStart(conditions: multiset<Condition>, t: Option<int>) {
    match t
    case None => forall c :: c in conditions ==> !Timed(c)
    case Some(x) =>
      && (exists c :: c in conditions && c.time == t)
      && (forall c :: c in conditions && Timed(c) ==> x <= c.time.value)
  }

  /** t is the latest of the readable times of the terminal conditions. */
  ghost predicate IsEnd(conditions: multiset<Condition>, t: Option<int>) {
    match t
    case None => forall c :: c in conditions && IsTerminal(c) ==> !Timed(c)
    case Some(x) =>
      && (exists c :: c in conditions && IsTerminal(c) && c.time == t)
      && (forall c :: c in conditions && IsTerminal(c) && Timed(c) ==> c.time.value <= x)
  }

  function Earlier(a: Option<int>, b: Option<int>): Option<int> {
    if b.Some? && (a.None? || b.value < a.value) then b else a
  }

  function Later(a: Option<int>, b: Option<int>): Option<int> {
    if b.Some? && (a.None? || b.value > a.value) then b else a
  }

  function Start(conditions: seq<Condition>): Option<int> {
    if conditions == [] then None
    else Earlier(Start(conditions[..|conditions| - 1]), conditions[|conditions| - 1].time)
  }

  function End(conditions: seq<Condition>): Option<int> {
    if conditions == [] then None
    else
      var last := conditions[|conditions| - 1];
      Later(End(conditions[..|conditions| - 1]), if IsTerminal(last) then last.time else None)
  }

  /** The duration is positive: it is refused when the end does not come after the start. */
  function Between(start: Option<int>, end: Option<int>): Option<int> {
    if start.Some? && end.Some? && end.value > start.value then Some(end.value - start.value) else None
  }

  function DurationOfConditions(conditions: seq<Condition>): Option<int> {
    Between(Start(conditions), End(conditions))
  }

  method DurationFromConditions(conditions: seq<Condition>) returns (duration: Option<int>)
    ensures duration == DurationOfConditions(conditions)
  {
    var start: Option<int>, end: Option<int> := None, None;
    for i := 0 to |conditions|
      invariant start == Start(conditions[..i])
      invariant end == End(conditions[..i])
    {
      var c := conditions[i];
      assert conditions[..i + 1][..i] == conditions[..i];
      if c.time.None? {
        continue;
      }
      if start.None? || c.time.value < start.value {
        start := c.time;
      }
      if FoldsToTrue(c.status) {
        match c.typ {
          case Complete | Failed | Succeeded =>
            if end.None? || c.time.value > end.value {
              end := c.time;
            }
          case OtherType =>
        }
      }
    }
    assert conditions[..|conditions|] == conditions;
    if start.None? || end.None? || end.value <= start.value {
      return None;
    }
    return Some(end.value - start.value);
  }

  lemma SplitLast(conditions: seq<Condition>)
    requires conditions != []
    ensures var front, last := conditions[..|conditions| - 1], conditions[|conditions| - 1];
            forall c :: c in multiset(conditions) <==> c in multiset(front) || c == last
  {
    assert conditions == conditions[..|conditions| - 1] + [conditions[|conditions| - 1]];
  }

  lemma {:induction false} StartIsMinimum(conditions: seq<Condition>)
    ensures IsStart(multiset(conditions), Start(conditions))
  {
    if conditions != [] {
      SplitLast(conditions);
      StartIsMinimum(conditions[..|conditions| - 1]);
    }
  }

  lemma {:induction false} EndIsMaximum(conditions: seq<Condition>)
    ensures IsEnd(multiset(conditions), End(conditions))
  {
    if conditions != [] {
      SplitLast(conditions);
      EndIsMaximum(conditions[..|conditions| - 1]);
    }
  }

  lemma StartIsUnique(conditions: multiset<Condition>, s: Option<int>, t: Option<int>)
    requires IsStart(conditions, s) && IsStart(conditions, t)
    ensures s == t
  {
  }

  lemma EndIsUnique(conditions: multiset<Condition>, s: Option<int>, t: Option<int>)
    requires IsEnd(conditions, s) && IsEnd(conditions, t)
    ensures s == t
  {
  }

  /**
   The conditions give a duration exactly when the latest terminal time comes
   after the earliest time of all, and then it is their distance.
   */
  lemma DurationIsSpan(conditions: seq<Condition>, d: int)
    ensures DurationOfConditions(conditions) == Some(d) <==>
            exists s, e :: IsStart(multiset(conditions), Some(s)) && IsEnd(multiset(conditions), Some(e)) &&
              d == e - s > 0
  {
    StartIsMinimum(conditions);
    EndIsMaximum(conditions);
    var all := multiset(conditions);
    var start, end := Start(conditions), End(conditions);
    forall s, e | IsStart(all, Some(s)) && IsEnd(all, Some(e)) ensures start == Some(s) && end == Some(e) {
      StartIsUnique(all, start, Some(s));
      EndIsUnique(all, end, Some(e));
    }
    if DurationOfConditions(conditions) == Some(d) {
      assert IsStart(all, Some(start.value)) && IsEnd(all, Some(end.value)) && d == end.value - start.value > 0;
    }
  }

  /** The duration does not depend on the order of the conditions. */
  lemma OrderDoesNotMatter(a: seq<Condition>, b: seq<Condition>)
    requires multiset(a) == multiset(b)
    ensures DurationOfConditions(a) == DurationOfConditions(b)
  {
    StartIsMinimum(a);
    StartIsMinimum(b);
    EndIsMaximum(a);
    EndIsMaximum(b);
    StartIsUnique(multiset(a), Start(a), Start(b));
    EndIsUnique(multiset(a), End(a), End(b));
  }

  /**
   The duration of a job: from the status times when both are there and in
   order, from the conditions otherwise.
   */
  function Duration(job: JobStatus): (d: Option<int>)
    ensures d.Some? ==> d.value > 0
  {
    var ofStatus := Between(job.startTime, job.completionTime);
    if ofStatus.Some? then ofStatus else DurationOfConditions(job.conditions)
  }

  /** d nanoseconds lie between the two status times, or else between the earliest time and the latest terminal one. */
  ghost predicate IsSpan(job: JobStatus, d: int) {
    if job.startTime.Some? && job.completionTime.Some? && job.startTime.value < job.completionTime.value then
      d == job.completionTime.value - job.startTime.value
    else
      exists s, e ::
        && IsStart(multiset(job.conditions), Some(s)) && IsEnd(multiset(job.conditions), Some(e))
        && d == e - s > 0
  }

  lemma DurationIsIff(job: JobStatus, d: int)
    ensures Duration(job) == Some(d) <==> IsSpan(job, d)
  {
    DurationIsSpan(job.conditions, d);
    hide DurationOfConditions, IsStart, IsEnd;
  }

  function Hours(duration: int): real {
    duration as real / Calendar.NANOS_PER_HOUR as real
  }

  /** What a job costs that ran for the given time at the given rate per hour. */
  function Cost(rate: real, duration: int): real {
    rate * Hours(duration)
  }
}
