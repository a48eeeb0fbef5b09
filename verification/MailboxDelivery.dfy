/** Each publication reaches the owner at most once (src/platform/macos/activation.rs). */
module MailboxDelivery {
  import opened Prelude
  import opened RequestText
  import opened MailboxModel
  import opened MailboxLaws

  /** Where a file is on its way from a writer to a claim, and from a claim to the owner. */
  datatype Place = Temp(w: nat) | AtPath | Claimed(i: nat) | InHand(p: nat) | Handed(i: nat)

  predicate Upstream(place: Place) {
    place.Temp? || place.AtPath? || place.Claimed?
  }

  function Holds(s: State, place: Place): Option<File> {
    match place
    case Temp(w) => if w in s.writers && HoldsTemp(s.writers[w].stage) then Some(s.writers[w].temp) else None
    case AtPath => s.path
    case Claimed(i) => if i < |s.claims| then Some(s.claims[i]) else None
    case InHand(p) =>
      if p in s.polls && s.polls[p].Reading? then Some(s.polls[p].claimed)
      else if p in s.polls && s.polls[p].Removing? then Some(s.polls[p].read)
      else None
    case Handed(i) => if i < |s.delivered| then Some(s.delivered[i]) else None
  }

  /** Up to the claim, and from the claim on, no file is in two places at once. */
  ghost predicate FilesApart(s: State) {
    forall a, b :: a != b && Upstream(a) == Upstream(b) && Holds(s, a).Some? && Holds(s, b).Some? ==>
      Holds(s, a).value.serial != Holds(s, b).value.serial
  }

  ghost predicate SerialsUsed(s: State) {
    forall a :: Holds(s, a).Some? ==> Holds(s, a).value.serial < s.nextSerial
  }

  /** What the owner handles has been claimed. */
  ghost predicate OnlyClaimed(s: State) {
    forall a :: !Upstream(a) && Holds(s, a).Some? ==> Holds(s, a).value in s.claims
  }

  /** The place from which a step brought the file that is now at `a`. */
  function Source(s: State, step: Step, a: Place): Place {
    if a.AtPath? && (step.Link? || step.Replace?) && step.ok && (step.Replace? || s.path.None?) then Temp(step.w)
    else if a == Claimed(|s.claims|) then AtPath
    else if step.Claim? && a == InHand(step.p) then AtPath
    else if step.Remove? && a == Handed(|s.delivered|) then InHand(step.p)
    else a
  }

  predicate IsNew(step: Step, a: Place) {
    step.WriteTemp? && step.ok && a == Temp(step.w)
  }

  /** The file now at `a` is new, or was at the source of `a` before. */
  predicate Came(s: State, step: Step, t: State, a: Place) {
    && Holds(t, a).Some? && s.nextSerial <= t.nextSerial
    && (if IsNew(step, a) then Holds(t, a).value.serial == s.nextSerial < t.nextSerial
        else Holds(t, a) == Holds(s, Source(s, step, a)))
  }

  lemma UpstreamFileMoves(s: State, step: Step, a: Place)
    requires Enabled(s, step) && Holds(Apply(s, step), a).Some? && Upstream(a)
    ensures Came(s, step, Apply(s, step), a)
  {
    hide FormatRequest, ParseRequest, Pending, RequestFor;
  }

  lemma ClaimedFileMoves(s: State, step: Step, a: Place)
    requires Enabled(s, step) && Holds(Apply(s, step), a).Some? && !Upstream(a)
    ensures Came(s, step, Apply(s, step), a)
  {
    hide FormatRequest, ParseRequest, Pending, RequestFor;
  }

  lemma FileMoves(s: State, step: Step, a: Place)
    requires Enabled(s, step) && Holds(Apply(s, step), a).Some?
    ensures Came(s, step, Apply(s, step), a)
  {
    hide Apply, Enabled, Came;
    if Upstream(a) {
      UpstreamFileMoves(s, step, a);
    } else {
      ClaimedFileMoves(s, step, a);
    }
  }

  /** A file leaves the place it came from. */
  lemma SourceIsLeft(s: State, step: Step, a: Place)
    requires Enabled(s, step) && Holds(Apply(s, step), a).Some?
    ensures Source(s, step, a) == a || Holds(Apply(s, step), Source(s, step, a)).None?
  {
    hide FormatRequest, ParseRequest, Pending, RequestFor;
  }

  ghost predicate Tidy(s: State) {
    FilesApart(s) && SerialsUsed(s) && OnlyClaimed(s)
  }

  lemma ClaimedIsHeld(s: State, file: File) returns (a: Place)
    requires file in s.claims
    ensures a.Claimed? && Holds(s, a) == Some(file)
  {
    var i :| 0 <= i < |s.claims| && s.claims[i] == file;
    a := Claimed(i);
  }

  /** Two files at different places were two files before the step. */
  lemma StillApart(s: State, step: Step, a: Place, b: Place)
    requires Enabled(s, step) && Tidy(s) && a != b && Upstream(a) == Upstream(b)
    requires Holds(Apply(s, step), a).Some? && Holds(Apply(s, step), b).Some?
    ensures Holds(Apply(s, step), a).value.serial != Holds(Apply(s, step), b).value.serial
  {
    hide Apply, Enabled, Holds;
    FileMoves(s, step, a);
    FileMoves(s, step, b);
    SourceIsLeft(s, step, a);
    SourceIsLeft(s, step, b);
    var from, other := Source(s, step, a), Source(s, step, b);
    if IsNew(step, a) || IsNew(step, b) {
    } else if Upstream(from) != Upstream(other) {
      var claimed := if Upstream(from) then other else from;
      var c := ClaimedIsHeld(s, Holds(s, claimed).value);
      assert c != AtPath;
    } else {
      assert from != other;
    }
  }

  lemma TidyStays(s: State, step: Step)
    requires Enabled(s, step) && Tidy(s)
    ensures Tidy(Apply(s, step))
  {
    hide Holds, Apply, Enabled, Source;
    var t := Apply(s, step);
    forall a, b | a != b && Upstream(a) == Upstream(b) && Holds(t, a).Some? && Holds(t, b).Some?
      ensures Holds(t, a).value.serial != Holds(t, b).value.serial
    {
      StillApart(s, step, a, b);
    }
    forall a | Holds(t, a).Some? ensures Holds(t, a).value.serial < t.nextSerial {
      FileMoves(s, step, a);
    }
    forall a | !Upstream(a) && Holds(t, a).Some? ensures Holds(t, a).value in t.claims {
      FileMoves(s, step, a);
      StaysClaimed(s, step, a);
    }
  }

  lemma StaysClaimed(s: State, step: Step, a: Place)
    requires Enabled(s, step) && OnlyClaimed(s) && !Upstream(a)
    requires Holds(Apply(s, step), a).Some? && Holds(Apply(s, step), a) == Holds(s, Source(s, step, a))
    ensures Holds(Apply(s, step), a).value in Apply(s, step).claims
  {
    hide FormatRequest, ParseRequest, Pending, RequestFor;
    var t := Apply(s, step);
    assert t.claims == s.claims || t.claims == s.claims + [s.path.value];
    if step.Claim? && a == InHand(step.p) {
      assert t.claims[|s.claims|] == s.path.value;
    }
  }

  lemma {:induction false} PlayStaysTidy(s: State, steps: seq<Step>)
    requires Legal(s, steps) && Tidy(s)
    ensures Tidy(Play(s, steps))
    decreases |steps|
  {
    hide Tidy, Apply, Enabled;
    if steps == [] {
    } else {
      TidyStays(s, steps[0]);
      PlayStaysTidy(Apply(s, steps[0]), steps[1..]);
    }
  }

  /** No publication is claimed twice or delivered twice, whatever interleaves and whatever fails,
      and only claimed publications are delivered. */
  lemma NothingIsDeliveredTwice(owner: nat, leftover: Option<string>, steps: seq<Step>)
    requires Legal(Initial(owner, leftover), steps)
    ensures var s := Play(Initial(owner, leftover), steps);
            && (forall i, j :: 0 <= i < j < |s.claims| ==> s.claims[i].serial != s.claims[j].serial)
            && (forall i, j :: 0 <= i < j < |s.delivered| ==> s.delivered[i].serial != s.delivered[j].serial)
            && (forall i :: 0 <= i < |s.delivered| ==> s.delivered[i] in s.claims)
  {
    hide Apply, Enabled, Play;
    PlayStaysTidy(Initial(owner, leftover), steps);
    var s := Play(Initial(owner, leftover), steps);
    forall i: nat, j: nat | i < j < |s.claims| ensures s.claims[i].serial != s.claims[j].serial {
      assert Holds(s, Claimed(i)) == Some(s.claims[i]) && Holds(s, Claimed(j)) == Some(s.claims[j]);
    }
    forall i: nat, j: nat | i < j < |s.delivered| ensures s.delivered[i].serial != s.delivered[j].serial {
      assert Holds(s, Handed(i)) == Some(s.delivered[i]) && Holds(s, Handed(j)) == Some(s.delivered[j]);
    }
    forall i: nat | i < |s.delivered| ensures s.delivered[i] in s.claims {
      assert Holds(s, Handed(i)) == Some(s.delivered[i]);
    }
  }

  // ---------------------------------------------------------------------
  // Only requests to the owner are answered
  // ---------------------------------------------------------------------

  /** A text is a request to this process for this action. */
  predicate Asks(owner: nat, text: string, action: Action) {
    ParseRequest(text) == Some(Request(owner, action))
  }

  predicate AsksSomething(owner: nat, text: string) {
    ParseRequest(text).Some? && ParseRequest(text).value.targetPid == owner
  }

  predicate AsksAs(owner: nat, text: string, answer: Option<Action>) {
    answer.Some? && Asks(owner, text, answer.value)
  }

  /** A reload-only writer takes the file in place for a pending request exactly when it is readable and
      asks the owner for something: a request to another process never counts as pending. */
  lemma CoalescesExactly(s: State, w: nat, readable: bool)
    requires Enabled(s, Peek(w, readable)) || Enabled(s, Recheck(w, readable))
    ensures forall action :: Pending(s) == Some(action) <==> s.path.Some? && Asks(s.owner, s.path.value.text, action)
    ensures var step := if Enabled(s, Peek(w, readable)) then Peek(w, readable) else Recheck(w, readable);
            AtStage(Apply(s, step), w, Returned(true)) <==>
              readable && s.path.Some? && AsksSomething(s.owner, s.path.value.text)
  {
    hide ParseRequest;
  }

  function AnswerOf(s: State, p: nat): Option<Action> {
    if p in s.polls && s.polls[p].Answered? then s.polls[p].answer else None
  }

  /** The polls that answered with an action. */
  function Answering(s: State): set<nat> {
    set p | p in s.polls && AnswerOf(s, p).Some?
  }

  /** Every delivery asks the owner for something, as many polls answered as files were delivered, and an
      answer is what some delivered file asks the owner for. */
  ghost predicate AnswersMatch(s: State) {
    && (forall i :: 0 <= i < |s.delivered| ==> AsksSomething(s.owner, s.delivered[i].text))
    && |Answering(s)| == |s.delivered|
    && (forall p :: p in Answering(s) ==>
          exists i :: 0 <= i < |s.delivered| && AsksAs(s.owner, s.delivered[i].text, AnswerOf(s, p)))
  }

  /** A removal after which the poll answers with an action. */
  predicate Answers(s: State, step: Step)
    requires Enabled(s, step)
  {
    step.Remove? && step.ok && RequestFor(s.owner, s.polls[step.p].read.text).Some?
  }

  /** Only the removal of a file that asks the owner for something makes a poll answer with an action. */
  lemma AnswerChanges(s: State, step: Step)
    requires Enabled(s, step)
    ensures var t := Apply(s, step);
            && t.owner == s.owner
            && t.delivered == (if Answers(s, step) then s.delivered + [s.polls[step.p].read] else s.delivered)
            && (Answers(s, step) ==> AnswerOf(s, step.p).None?)
            && forall p :: AnswerOf(t, p) ==
                 if Answers(s, step) && p == step.p then RequestFor(s.owner, s.polls[p].read.text)
                 else AnswerOf(s, p)
  {
    hide ParseRequest, FormatRequest, Pending;
  }

  lemma AnsweringGrowsExactly(s: State, step: Step)
    requires Enabled(s, step)
    ensures var t := Apply(s, step);
            && Answering(t) == (if Answers(s, step) then Answering(s) + {step.p} else Answering(s))
            && (Answers(s, step) ==> step.p !in Answering(s))
  {
    hide Apply, RequestFor;
    AnswerChanges(s, step);
    var t := Apply(s, step);
    assert forall p :: (p in Answering(t) <==> AnswerOf(t, p).Some?) && (p in Answering(s) <==> AnswerOf(s, p).Some?);
  }

  lemma AnswersStayMatched(s: State, step: Step)
    requires Enabled(s, step) && AnswersMatch(s)
    ensures AnswersMatch(Apply(s, step))
  {
    hide Apply, AnswerOf, Answering, ParseRequest;
    var t := Apply(s, step);
    AnswerChanges(s, step);
    AnsweringGrowsExactly(s, step);
    if Answers(s, step) {
      var file := s.polls[step.p].read;
      assert t.delivered[|s.delivered|] == file;
      assert Answering(t) == Answering(s) + {step.p} && |t.delivered| == |s.delivered| + 1;
    }
    forall p | p in Answering(t)
      ensures exists i :: 0 <= i < |t.delivered| && AsksAs(t.owner, t.delivered[i].text, AnswerOf(t, p))
    {
      if p in Answering(s) {
        var i :| 0 <= i < |s.delivered| && AsksAs(s.owner, s.delivered[i].text, AnswerOf(s, p));
        assert t.delivered[i] == s.delivered[i];
      } else {
        assert t.delivered[|s.delivered|] == s.polls[step.p].read;
      }
    }
  }

  lemma {:induction false} PlayStaysMatched(s: State, steps: seq<Step>)
    requires Legal(s, steps) && AnswersMatch(s)
    ensures AnswersMatch(Play(s, steps))
    decreases |steps|
  {
    hide AnswersMatch, Apply, Enabled;
    if steps == [] {
    } else {
      AnswersStayMatched(s, steps[0]);
      PlayStaysMatched(Apply(s, steps[0]), steps[1..]);
    }
  }

  /** In every interleaving, with any failures: as many polls answer with an action as files are delivered,
      and every answer and every delivery is a request that names the owner's process. */
  lemma AnswersAreRequests(owner: nat, leftover: Option<string>, steps: seq<Step>)
    requires Legal(Initial(owner, leftover), steps)
    ensures AnswersMatch(Play(Initial(owner, leftover), steps))
  {
    assert Answering(Initial(owner, leftover)) == {};
    PlayStaysMatched(Initial(owner, leftover), steps);
  }

  // ---------------------------------------------------------------------
  // What is claimed is delivered
  // ---------------------------------------------------------------------

  /** No poll fails to read or to remove the file it claimed. */
  predicate PollsSucceed(steps: seq<Step>) {
    forall i :: 0 <= i < |steps| ==> !(steps[i].Read? && !steps[i].readable) && !(steps[i].Remove? && !steps[i].ok)
  }

  ghost predicate InFlight(s: State, file: File) {
    exists p :: Holds(s, InHand(p)) == Some(file)
  }

  /** Every claimed request for the owner has been delivered or is being handled. */
  ghost predicate Handled(s: State) {
    forall i :: 0 <= i < |s.claims| && RequestFor(s.owner, s.claims[i].text).Some? ==>
      s.claims[i] in s.delivered || InFlight(s, s.claims[i])
  }

  lemma HandledStep(s: State, step: Step, file: File)
    requires Enabled(s, step) && !(step.Read? && !step.readable) && !(step.Remove? && !step.ok)
    requires RequestFor(s.owner, file.text).Some? && (file in s.delivered || InFlight(s, file))
    ensures file in Apply(s, step).delivered || InFlight(Apply(s, step), file)
  {
    hide FormatRequest, ParseRequest, Pending;
    var t := Apply(s, step);
    if file !in s.delivered {
      var p :| Holds(s, InHand(p)) == Some(file);
      if step.Remove? && step.p == p {
        assert t.delivered[|s.delivered|] == file;
      } else {
        assert Holds(t, InHand(p)) == Some(file);
      }
    }
  }

  lemma ClaimIsInFlight(s: State, step: Step)
    requires Enabled(s, step) && Claims(s, step)
    ensures var t := Apply(s, step);
            t.claims == s.claims + [s.path.value] && InFlight(t, s.path.value)
  {
    hide FormatRequest, ParseRequest, Pending, RequestFor;
    assert Holds(Apply(s, step), InHand(step.p)) == s.path;
  }

  lemma OnlyClaimsClaim(s: State, step: Step)
    requires Enabled(s, step)
    ensures Apply(s, step).owner == s.owner
    ensures !Claims(s, step) ==> Apply(s, step).claims == s.claims
  {
    hide FormatRequest, ParseRequest, Pending, RequestFor;
  }

  lemma StaysHandled(s: State, step: Step)
    requires Enabled(s, step) && Handled(s)
    requires !(step.Read? && !step.readable) && !(step.Remove? && !step.ok)
    ensures Handled(Apply(s, step))
  {
    hide Apply, Enabled, RequestFor, InFlight;
    var t := Apply(s, step);
    OnlyClaimsClaim(s, step);
    if Claims(s, step) {
      ClaimIsInFlight(s, step);
    }
    forall i | 0 <= i < |t.claims| && RequestFor(t.owner, t.claims[i].text).Some?
      ensures t.claims[i] in t.delivered || InFlight(t, t.claims[i])
    {
      if i < |s.claims| {
        HandledStep(s, step, s.claims[i]);
      }
    }
  }

  lemma {:induction false} PlayStaysHandled(s: State, steps: seq<Step>)
    requires Legal(s, steps) && Handled(s) && PollsSucceed(steps)
    ensures Handled(Play(s, steps))
    decreases |steps|
  {
    hide Handled, Apply, Enabled;
    if steps == [] {
    } else {
      assert !(steps[0].Read? && !steps[0].readable) && !(steps[0].Remove? && !steps[0].ok);
      StaysHandled(s, steps[0]);
      PlayStaysHandled(Apply(s, steps[0]), steps[1..]);
    }
  }

  /** The way of a request to the owner: in every interleaving in which polls can read and remove what
      they claim, once no poll is in flight and nothing is pending, every request that returned Ok has been
      answered by a delivery of a file claimed after it began, and each such file at most once. */
  lemma OkRequestsAreDelivered(owner: nat, leftover: Option<string>, steps: seq<Step>, w: nat) returns (i: nat)
    requires owner <= U32_MAX && Legal(Initial(owner, leftover), steps) && PollsSucceed(steps)
    requires AtStage(Play(Initial(owner, leftover), steps), w, Returned(true))
    requires Pending(Play(Initial(owner, leftover), steps)).None?
    requires forall file :: !InFlight(Play(Initial(owner, leftover), steps), file)
    ensures var s := Play(Initial(owner, leftover), steps);
            && s.writers[w].began <= i < |s.claims|
            && s.claims[i] in s.delivered && RequestFor(s.owner, s.claims[i].text).Some?
            && (NoDowngrade(Initial(owner, leftover), steps) ==>
                  Strength(RequestFor(s.owner, s.claims[i].text)) >= Strength(Some(s.writers[w].action)))
  {
    hide Apply, Enabled, RequestFor, InFlight, Pending;
    var start := Initial(owner, leftover);
    var s := Play(start, steps);
    PlayStaysHandled(start, steps);
    if NoDowngrade(start, steps) {
      OpenDominatesReload(owner, leftover, steps, w);
      i :| s.writers[w].began <= i < |s.claims|
           && Strength(RequestFor(s.owner, s.claims[i].text)) >= Strength(Some(s.writers[w].action));
    } else {
      NoRequestIsLost(owner, leftover, steps, w);
      i :| s.writers[w].began <= i < |s.claims| && RequestFor(s.owner, s.claims[i].text).Some?;
    }
  }
}
