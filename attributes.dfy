/**
 * The store's view of an item as named attributes. An update names attributes
 * and values; applying it to a typed profile or session goes through these
 * views, so that "which attributes changed" can be stated once for both tables.
 */
module Attributes {
  import opened Wrappers
  import opened Types

  /** An attribute value as the store holds it. */
  datatype Value =
    | Number(n: real)
    | Text(s: string)
    | TextList(items: seq<string>)
    | Goals(goals: seq<FastingGoal>)
    | Instant(ms: Timestamp)
    | Status(status: SessionStatus)

  /** One `SET` assignment: attribute name and the value it receives. */
  type Assignment = (string, Value)

  /** The value the last assignment to `name` in `sets` gives, if there is one. */
  function LastAssigned(sets: seq<Assignment>, name: string): Option<Value>
    decreases |sets|
  {
    if |sets| == 0 then None
    else if sets[|sets| - 1].0 == name then Some(sets[|sets| - 1].1)
    else LastAssigned(sets[..|sets| - 1], name)
  }

  // ---------------------------------------------------------------- profiles

  /** The attribute `name` of a stored profile; optional members that are absent have none. */
  function ProfileAttr(p: UserProfile, name: string): Option<Value> {
    if name == "userId" then Some(Text(p.userId))
    else if name == "email" then Some(Text(p.email))
    else if name == "name" then Some(Text(p.name))
    else if name == "dateOfBirth" then Some(Text(p.dateOfBirth))
    else if name == "currentWeight" then (if p.currentWeight.Some? then Some(Number(p.currentWeight.value)) else None)
    else if name == "targetWeight" then (if p.targetWeight.Some? then Some(Number(p.targetWeight.value)) else None)
    else if name == "diseases" then Some(TextList(p.diseases))
    else if name == "fastingGoals" then Some(Goals(p.fastingGoals))
    else if name == "createdAt" then Some(Instant(p.createdAt))
    else if name == "updatedAt" then Some(Instant(p.updatedAt))
    else None
  }

  /** An assignment a profile can take: a non-key attribute of the profile type, with a value of its type. */
  predicate ProfileSettable(a: Assignment) {
    match a.1
    case Text(_) => a.0 in {"email", "name", "dateOfBirth"}
    case Number(_) => a.0 in {"currentWeight", "targetWeight"}
    case TextList(_) => a.0 == "diseases"
    case Goals(_) => a.0 == "fastingGoals"
    case Instant(_) => a.0 in {"createdAt", "updatedAt"}
    case Status(_) => false
  }

  function SetProfileAttr(p: UserProfile, a: Assignment): (q: UserProfile)
    requires ProfileSettable(a)
    ensures ProfileAttr(q, a.0) == Some(a.1)
    ensures forall name :: name != a.0 ==> ProfileAttr(q, name) == ProfileAttr(p, name)
  {
    match a.1
    case Text(s) =>
      if a.0 == "email" then p.(email := s) else if a.0 == "name" then p.(name := s) else p.(dateOfBirth := s)
    case Number(n) =>
      if a.0 == "currentWeight" then p.(currentWeight := Some(n)) else p.(targetWeight := Some(n))
    case TextList(items) => p.(diseases := items)
    case Goals(gs) => p.(fastingGoals := gs)
    case Instant(t) => if a.0 == "createdAt" then p.(createdAt := t) else p.(updatedAt := t)
  }

  /** Applies the assignments in order, as the store applies the clauses of one `SET`. */
  function SetProfileAll(p: UserProfile, sets: seq<Assignment>): UserProfile
    requires forall i :: 0 <= i < |sets| ==> ProfileSettable(sets[i])
    decreases |sets|
  {
    if |sets| == 0 then p else SetProfileAttr(SetProfileAll(p, sets[..|sets| - 1]), sets[|sets| - 1])
  }

  /** After a sequence of assignments, each attribute holds its last assigned value, or its old one. */
  lemma {:induction false} SetProfileAllAttr(p: UserProfile, sets: seq<Assignment>, name: string)
    requires forall i :: 0 <= i < |sets| ==> ProfileSettable(sets[i])
    ensures ProfileAttr(SetProfileAll(p, sets), name)
         == if LastAssigned(sets, name).Some? then LastAssigned(sets, name) else ProfileAttr(p, name)
    decreases |sets|
  {
    if |sets| > 0 {
      SetProfileAllAttr(p, sets[..|sets| - 1], name);
    }
  }

  // ---------------------------------------------------------------- sessions

  /** The attribute `name` of a stored session. */
  function SessionAttr(s: FastingSession, name: string): Option<Value> {
    if name == "sessionId" then Some(Text(s.sessionId))
    else if name == "userId" then Some(Text(s.userId))
    else if name == "startTime" then Some(Instant(s.startTime))
    else if name == "endTime" then (if s.endTime.Some? then Some(Instant(s.endTime.value)) else None)
    else if name == "targetHours" then (if s.targetHours.Some? then Some(Number(s.targetHours.value)) else None)
    else if name == "status" then Some(Status(s.status))
    else if name == "createdAt" then Some(Instant(s.createdAt))
    else if name == "updatedAt" then Some(Instant(s.updatedAt))
    else None
  }

  /** An assignment a session can take: a non-key attribute of the session type, with a value of its type. */
  predicate SessionSettable(a: Assignment) {
    match a.1
    case Instant(_) => a.0 in {"startTime", "endTime", "createdAt", "updatedAt"}
    case Number(_) => a.0 == "targetHours"
    case Status(_) => a.0 == "status"
    case _ => false
  }

  function SetSessionAttr(s: FastingSession, a: Assignment): (r: FastingSession)
    requires SessionSettable(a)
    ensures SessionAttr(r, a.0) == Some(a.1)
    ensures forall name :: name != a.0 ==> SessionAttr(r, name) == SessionAttr(s, name)
  {
    match a.1
    case Instant(t) =>
      if a.0 == "startTime" then s.(startTime := t)
      else if a.0 == "endTime" then s.(endTime := Some(t))
      else if a.0 == "createdAt" then s.(createdAt := t)
      else s.(updatedAt := t)
    case Number(n) => s.(targetHours := Some(n))
    case Status(st) => s.(status := st)
  }

  function SetSessionAll(s: FastingSession, sets: seq<Assignment>): FastingSession
    requires forall i :: 0 <= i < |sets| ==> SessionSettable(sets[i])
    decreases |sets|
  {
    if |sets| == 0 then s else SetSessionAttr(SetSessionAll(s, sets[..|sets| - 1]), sets[|sets| - 1])
  }

  lemma {:induction false} SetSessionAllAttr(s: FastingSession, sets: seq<Assignment>, name: string)
    requires forall i :: 0 <= i < |sets| ==> SessionSettable(sets[i])
    ensures SessionAttr(SetSessionAll(s, sets), name)
         == if LastAssigned(sets, name).Some? then LastAssigned(sets, name) else SessionAttr(s, name)
    decreases |sets|
  {
    if |sets| > 0 {
      SetSessionAllAttr(s, sets[..|sets| - 1], name);
    }
  }

  /** A session is determined by its attributes. */
  lemma SessionByAttrs(s: FastingSession, r: FastingSession)
    requires forall name :: SessionAttr(s, name) == SessionAttr(r, name)
    ensures s == r
  {
    assert s.sessionId == r.sessionId by { assert SessionAttr(s, "sessionId") == SessionAttr(r, "sessionId"); }
    assert s.userId == r.userId by { assert SessionAttr(s, "userId") == SessionAttr(r, "userId"); }
    assert s.startTime == r.startTime by { assert SessionAttr(s, "startTime") == SessionAttr(r, "startTime"); }
    assert s.endTime == r.endTime by { assert SessionAttr(s, "endTime") == SessionAttr(r, "endTime"); }
    assert s.targetHours == r.targetHours by { assert SessionAttr(s, "targetHours") == SessionAttr(r, "targetHours"); }
    assert s.status == r.status by { assert SessionAttr(s, "status") == SessionAttr(r, "status"); }
    assert s.createdAt == r.createdAt by { assert SessionAttr(s, "createdAt") == SessionAttr(r, "createdAt"); }
    assert s.updatedAt == r.updatedAt by { assert SessionAttr(s, "updatedAt") == SessionAttr(r, "updatedAt"); }
  }
}
