/** Joining a runner group: every request reads the stored group, checks its copy and overwrites the stored
    members, as separate steps that interleave with those of all other requests. */
module JoinGroup {

  const MAX_GROUP_MEMBERS := 16

  /** A request in flight: it holds the members it read or, past both checks, the members it will write. */
  datatype Request =
    | Found(sub: string, members: seq<string>)
    | Ready(sub: string, members: seq<string>)

  datatype Outcome = Joined | AlreadyMember | GroupFull | Pending | NoRequest

  datatype State = State(owner: string, members: seq<string>, requests: map<nat, Request>)

  datatype Step =
    | Find(id: nat, sub: string)
    | Check(id: nat)
    | Update(id: nat)
    | Abort(id: nat)

  /** The group as `CreateRunnerGroupHandler` inserts it. */
  function Created(owner: string): State {
    State(owner, [owner], map[])
  }

  function Checked(r: Request): Outcome {
    if r.Ready? then Pending
    else if r.sub in r.members then AlreadyMember
    else if |r.members| == MAX_GROUP_MEMBERS then GroupFull
    else Pending
  }

  /** One step of one request; a step the request cannot take changes nothing. */
  function Next(s: State, step: Step): State {
    match step
    case Find(id, sub) =>
      if id in s.requests then s else s.(requests := s.requests[id := Found(sub, s.members)])
    case Check(id) =>
      if id !in s.requests || s.requests[id].Ready? then s
      else
        var r := s.requests[id];
        if Checked(r) == Pending then s.(requests := s.requests[id := Ready(r.sub, r.members + [r.sub])])
        else s.(requests := s.requests - {id})
    case Update(id) =>
      if id !in s.requests || s.requests[id].Found? then s
      else s.(members := s.requests[id].members, requests := s.requests - {id})
    case Abort(id) => s.(requests := s.requests - {id})
  }

  function Run(s: State, steps: seq<Step>): State {
    if steps == [] then s else Next(Run(s, steps[..|steps| - 1]), steps[|steps| - 1])
  }

  /** The stored group document, with the requests in flight. */
  class Group {
    const owner: string
    var members: seq<string>
    var requests: map<nat, Request>

    ghost function Model(): State
      reads this
    {
      State(owner, members, requests)
    }

    constructor (sub: string)
      ensures Model() == Created(sub)
    {
      owner := sub;
      members := [sub];
      requests := map[];
    }

    /** `FindOne`: an atomic read of the document. */
    method FindOne(id: nat, sub: string)
      modifies this
      ensures Model() == Next(old(Model()), Find(id, sub))
    {
      if id !in requests {
        requests := requests[id := Found(sub, members)];
      }
    }

    /** The two checks and the append, on the copy the request holds. */
    method CheckCopy(id: nat) returns (outcome: Outcome)
      modifies this
      ensures Model() == Next(old(Model()), Check(id))
      ensures outcome == if id in old(requests) then Checked(old(requests)[id]) else NoRequest
      ensures outcome == AlreadyMember <==>
                id in old(requests) && var r := old(requests)[id]; r.Found? && r.sub in r.members
      ensures outcome == GroupFull <==>
                id in old(requests) && var r := old(requests)[id]; r.Found? && r.sub !in r.members && |r.members| == 16
    {
      if id !in requests {
        return NoRequest;
      }
      match requests[id] {
        case Ready(_, _) =>
          return Pending;
        case Found(sub, copy) =>
          if sub in copy {
            requests := requests - {id};
            return AlreadyMember;
          }
          if |copy| == MAX_GROUP_MEMBERS {
            requests := requests - {id};
            return GroupFull;
          }
          copy := copy + [sub];
          requests := requests[id := Ready(sub, copy)];
          return Pending;
      }
    }

    /** `UpdateOne`: an atomic overwrite of the stored members. */
    method UpdateOne(id: nat) returns (outcome: Outcome)
      modifies this
      ensures Model() == Next(old(Model()), Update(id))
      ensures outcome == Joined <==> id in old(requests) && old(requests)[id].Ready?
    {
      outcome := NoRequest;
      if id in requests && requests[id].Ready? {
        members := requests[id].members;
        requests := requests - {id};
        outcome := Joined;
      }
    }
  }

  // ----- what every reachable state satisfies

  /** Between 1 and 16 distinct members, the owner first. */
  ghost predicate Proper(owner: string, members: seq<string>) {
    && 1 <= |members| <= 16
    && members[0] == owner
    && forall i, j :: 0 <= i < j < |members| ==> members[i] != members[j]
  }

  ghost predicate ProperRequest(owner: string, r: Request) {
    Proper(owner, r.members) && (r.Ready? ==> r.sub == r.members[|r.members| - 1])
  }

  ghost predicate Inv(s: State) {
    Proper(s.owner, s.members) && forall id :: id in s.requests ==> ProperRequest(s.owner, s.requests[id])
  }

  lemma CheckKeepsProper(owner: string, r: Request)
    requires ProperRequest(owner, r) && r.Found? && Checked(r) == Pending
    ensures ProperRequest(owner, Ready(r.sub, r.members + [r.sub]))
  {
  }

  lemma NextKeepsInv(s: State, step: Step)
    requires Inv(s)
    ensures Inv(Next(s, step)) && Next(s, step).owner == s.owner
  {
    if step.Check? && step.id in s.requests && s.requests[step.id].Found? && Checked(s.requests[step.id]) == Pending {
      CheckKeepsProper(s.owner, s.requests[step.id]);
      hide Proper, Checked;
    }
  }

  lemma {:induction false} RunKeepsInv(s: State, steps: seq<Step>)
    requires Inv(s)
    ensures Inv(Run(s, steps)) && Run(s, steps).owner == s.owner
  {
    if steps != [] {
      RunKeepsInv(s, steps[..|steps| - 1]);
      NextKeepsInv(Run(s, steps[..|steps| - 1]), steps[|steps| - 1]);
    }
  }

  /** However the requests interleave, the stored list and every list in flight is proper. */
  lemma {:induction false} ReachableProper(owner: string, steps: seq<Step>)
    ensures var s := Run(Created(owner), steps);
            Proper(owner, s.members) && forall id :: id in s.requests ==> Proper(owner, s.requests[id].members)
  {
    assert Proper(owner, [owner]);
    RunKeepsInv(Created(owner), steps);
  }

  // ----- a join that nobody disturbs

  lemma {:induction false} RunAppend(s: State, first: seq<Step>, second: seq<Step>)
    ensures Run(s, first + second) == Run(Run(s, first), second)
  {
    if second == [] {
      assert first + second == first;
    } else {
      assert (first + second)[..|first + second| - 1] == first + second[..|second| - 1];
      RunAppend(s, first, second[..|second| - 1]);
    }
  }

  /** Steps of other requests that write nothing. */
  ghost predicate Quiet(steps: seq<Step>, id: nat) {
    forall k :: 0 <= k < |steps| ==> !steps[k].Update? && steps[k].id != id
  }

  lemma {:induction false} QuietRun(s: State, steps: seq<Step>, id: nat)
    requires Quiet(steps, id)
    ensures var t := Run(s, steps);
            t.members == s.members && (id in t.requests <==> id in s.requests)
            && (id in s.requests ==> t.requests[id] == s.requests[id])
  {
    if steps != [] {
      QuietRun(s, steps[..|steps| - 1], id);
    }
  }

  /** With no write of others between its read and its write, a join adds exactly the client, once, if there is room. */
  lemma UndisturbedJoin(s: State, id: nat, sub: string, before: seq<Step>, after: seq<Step>)
    requires id !in s.requests && Quiet(before, id) && Quiet(after, id)
    ensures Run(s, [Find(id, sub)] + before + [Check(id)] + after + [Update(id)]).members
         == if sub in s.members || |s.members| == 16 then s.members else s.members + [sub]
  {
    var s1 := Next(s, Find(id, sub));
    var s2 := Run(s1, before);
    var s3 := Next(s2, Check(id));
    var s4 := Run(s3, after);
    QuietRun(s1, before, id);
    QuietRun(s3, after, id);
    RunOne(s, Find(id, sub));
    RunOne(s2, Check(id));
    RunOne(s4, Update(id));
    RunAppend(s, [Find(id, sub)], before);
    RunAppend(s, [Find(id, sub)] + before, [Check(id)]);
    RunAppend(s, [Find(id, sub)] + before + [Check(id)], after);
    RunAppend(s, [Find(id, sub)] + before + [Check(id)] + after, [Update(id)]);
  }

  lemma RunOne(s: State, step: Step)
    ensures Run(s, [step]) == Next(s, step)
  {
  }

  /** The limit in numbers: the sixteenth member is let in, the seventeenth is not. */
  lemma SixteenFit(r: Request)
    requires r.Found? && r.sub !in r.members
    ensures |r.members| == 15 ==> Checked(r) == Pending
    ensures |r.members| == 16 ==> Checked(r) == GroupFull
  {
  }

  /** Which answer goes with which list: membership is looked at before room. */
  lemma Answers(r: Request)
    ensures Checked(r) == AlreadyMember <==> r.Found? && r.sub in r.members
    ensures Checked(r) == GroupFull <==> r.Found? && r.sub !in r.members && |r.members| == 16
    ensures Checked(r) == Pending <==> r.Ready? || (r.sub !in r.members && |r.members| != 16)
  {
  }

  /** After a refusal or a failed call nothing of the request is left to be written. */
  lemma Refused(s: State, id: nat)
    ensures var t := Next(s, Abort(id)); t.members == s.members && Next(t, Update(id)) == t
    ensures id in s.requests && s.requests[id].Found? && Checked(s.requests[id]) != Pending ==>
              var t := Next(s, Check(id)); t.members == s.members && Next(t, Update(id)) == t
  {
  }

  // ----- when a membership lasts

  /** If this request writes, `member` stays. */
  predicate Spares(r: Request, member: string) {
    if r.Ready? then member in r.members
    else member in r.members || member == r.sub || Checked(r) != Pending
  }

  ghost predicate Settled(s: State, member: string) {
    member in s.members && forall id :: id in s.requests ==> Spares(s.requests[id], member)
  }

  lemma SettledStep(s: State, step: Step, member: string)
    requires Settled(s, member)
    ensures Settled(Next(s, step), member)
  {
  }

  lemma {:induction false} SettledRun(s: State, steps: seq<Step>, member: string)
    requires Settled(s, member)
    ensures Settled(Run(s, steps), member)
  {
    if steps != [] {
      SettledRun(s, steps[..|steps| - 1], member);
      SettledStep(Run(s, steps[..|steps| - 1]), steps[|steps| - 1], member);
    }
  }

  /** Some continuation in which `member` is not a member. */
  lemma Unsettled(s: State, member: string) returns (steps: seq<Step>)
    requires !Settled(s, member)
    ensures member !in Run(s, steps).members
  {
    if member !in s.members {
      steps := [];
    } else {
      var id :| id in s.requests && !Spares(s.requests[id], member);
      steps := [Check(id), Update(id)];
      assert steps == [Check(id)] + [Update(id)];
      RunAppend(s, [Check(id)], [Update(id)]);
      RunOne(s, Check(id));
      RunOne(Next(s, Check(id)), Update(id));
    }
  }

  /** A membership lasts through every continuation exactly when no request in flight is about to overwrite it. */
  lemma MembershipLasts(s: State, member: string)
    ensures (forall steps :: member in Run(s, steps).members) <==> Settled(s, member)
  {
    if Settled(s, member) {
      forall steps ensures member in Run(s, steps).members {
        SettledRun(s, steps, member);
      }
    } else {
      var steps := Unsettled(s, member);
      assert member !in Run(s, steps).members;
    }
  }

  /** The lost update: both requests report success, only the second client is in the group. */
  lemma LostJoin(owner: string, first: string, second: string)
    requires owner != first && owner != second && first != second
    ensures var read := Run(Created(owner), [Find(0, first), Find(1, second), Check(0), Check(1)]);
            var one := Next(read, Update(0));
            && 0 in read.requests && read.requests[0].Ready? && one.members == [owner, first]
            && 1 in one.requests && one.requests[1].Ready? && Next(one, Update(1)).members == [owner, second]
  {
    var c := Created(owner);
    var steps := [Find(0, first), Find(1, second), Check(0), Check(1)];
    assert steps[..3] == [Find(0, first), Find(1, second), Check(0)];
    assert steps[..3][..2] == [Find(0, first), Find(1, second)];
    assert steps[..3][..2][..1] == [Find(0, first)];
    RunOne(c, Find(0, first));
    assert Run(c, steps[..3][..2]) == Next(Next(c, Find(0, first)), Find(1, second));
    assert Run(c, steps[..3]) == Next(Next(Next(c, Find(0, first)), Find(1, second)), Check(0));
  }
}
