/** What every interleaving of writers and polls keeps (src/platform/macos/activation.rs). */
module MailboxLaws {
  import opened Prelude
  import opened RequestText
  import opened MailboxModel

  /** None < reload < reload and open. */
  function Strength(request: Option<Action>): nat {
    match request
    case None => 0
    case Some(ReloadOnly) => 1
    case Some(ReloadAndOpen) => 2
  }

  /** A reload-only writer in the rename fallback replaces a pending request to open. */
  predicate Downgrade(s: State, step: Step) {
    && step.Replace? && step.ok && AtStage(s, step.w, Replacing)
    && s.writers[step.w].action.ReloadOnly? && Pending(s) == Some(ReloadAndOpen)
  }

  predicate Claims(s: State, step: Step) {
    step.Claim? && step.ok && s.path.Some?
  }

  predicate HoldsTemp(stage: WriterStage) {
    stage.Linking? || stage.Rechecking? || stage.Replacing?
  }

  predicate WriterSound(s: State, writer: Writer) {
    && writer.began <= |s.claims|
    && (writer.stage.Peeking? || writer.stage.Linking? || writer.stage.Rechecking? ==> writer.action.ReloadOnly?)
    && (HoldsTemp(writer.stage) ==> writer.temp.text == FormatRequest(s.owner, writer.action))
  }

  ghost predicate WritersSound(s: State) {
    && s.owner <= U32_MAX
    && forall w :: w in s.writers ==> WriterSound(s, s.writers[w])
  }

  lemma WritersStaySound(s: State, step: Step)
    requires WritersSound(s) && Enabled(s, step)
    ensures WritersSound(Apply(s, step)) && Apply(s, step).owner == s.owner
  {
    hide FormatRequest, ParseRequest, Pending;
    var t := Apply(s, step);
    assert |s.claims| <= |t.claims|;
    forall w | w in t.writers ensures WriterSound(t, t.writers[w]) {
      if w in s.writers {
        assert WriterSound(s, s.writers[w]);
      }
    }
  }

  // ---------------------------------------------------------------------
  // No lost request
  // ---------------------------------------------------------------------

  /** A request of at least this strength is still pending or was claimed after the writer began. */
  ghost predicate Covered(s: State, began: nat, level: nat) {
    || Strength(Pending(s)) >= level
    || exists i :: began <= i < |s.claims| && Strength(RequestFor(s.owner, s.claims[i].text)) >= level
  }

  lemma PublishedIsPending(s: State, w: nat)
    requires WritersSound(s) && w in s.writers && HoldsTemp(s.writers[w].stage)
    ensures Pending(Publish(s, w)) == Some(s.writers[w].action)
  {
    hide FormatRequest, ParseRequest;
    RequestRoundTrips(s.owner, s.writers[w].action);
  }

  /** Pending strength falls exactly at a claim and at a downgrade. */
  lemma StrengthFallsExactly(s: State, step: Step)
    requires WritersSound(s) && Enabled(s, step)
    ensures Strength(Pending(Apply(s, step))) < Strength(Pending(s)) <==>
              (Claims(s, step) && Pending(s).Some?) || Downgrade(s, step)
  {
    hide FormatRequest, ParseRequest;
    if step.Link? || step.Replace? {
      PublishedIsPending(s, step.w);
    }
  }

  lemma CoverageIsKept(s: State, step: Step, began: nat, level: nat)
    requires WritersSound(s) && Enabled(s, step) && began <= |s.claims|
    requires Covered(s, began, level) && (level <= 1 || !Downgrade(s, step))
    ensures Covered(Apply(s, step), began, level)
  {
    hide FormatRequest, ParseRequest, RequestFor;
    StrengthFallsExactly(s, step);
    var t := Apply(s, step);
    assert |t.claims| >= |s.claims| && forall i :: 0 <= i < |s.claims| ==> t.claims[i] == s.claims[i];
    if Strength(Pending(s)) >= level && Strength(Pending(t)) < level {
      if Claims(s, step) {
        assert t.claims[|s.claims|] == s.path.value;
      } else {
        PublishedIsPending(s, step.w);
      }
    }
  }

  /** A request that just returned Ok is covered at its own strength. */
  lemma ReturnIsCovered(s: State, step: Step, w: nat)
    requires WritersSound(s) && Enabled(s, step)
    requires w in s.writers && !s.writers[w].stage.Returned?
    requires Apply(s, step).writers[w].stage == Returned(true)
    ensures Covered(Apply(s, step), s.writers[w].began, Strength(Some(s.writers[w].action)))
  {
    hide FormatRequest, ParseRequest, RequestFor;
    if step.Link? || step.Replace? {
      PublishedIsPending(s, step.w);
    }
  }

  /** What a writer's Ok promises: its own strength, or merely some request. */
  function Promised(writer: Writer, strict: bool): nat {
    if strict then Strength(Some(writer.action)) else 1
  }

  ghost predicate OksCovered(s: State, strict: bool) {
    forall w :: w in s.writers && s.writers[w].stage == Returned(true) ==>
      Covered(s, s.writers[w].began, Promised(s.writers[w], strict))
  }

  lemma OksStayCovered(s: State, step: Step, strict: bool)
    requires WritersSound(s) && Enabled(s, step) && OksCovered(s, strict)
    requires strict ==> !Downgrade(s, step)
    ensures OksCovered(Apply(s, step), strict)
  {
    hide FormatRequest, ParseRequest, RequestFor, Covered, Pending;
    var t := Apply(s, step);
    forall w | w in t.writers && t.writers[w].stage == Returned(true)
      ensures Covered(t, t.writers[w].began, Promised(t.writers[w], strict))
    {
      var writer := s.writers[w];
      if writer.stage == Returned(true) {
        assert t.writers[w] == writer;
        CoverageIsKept(s, step, writer.began, Promised(writer, strict));
      } else {
        ReturnIsCovered(s, step, w);
        CoveredAtLess(t, writer.began, Strength(Some(writer.action)), Promised(writer, strict));
      }
    }
  }

  lemma CoveredAtLess(s: State, began: nat, level: nat, less: nat)
    requires Covered(s, began, level) && less <= level
    ensures Covered(s, began, less)
  {
  }

  ghost predicate NoDowngrade(s: State, steps: seq<Step>)
    requires Legal(s, steps)
    decreases |steps|
  {
    steps == [] || (!Downgrade(s, steps[0]) && NoDowngrade(Apply(s, steps[0]), steps[1..]))
  }

  lemma {:induction false} PlayKeepsCover(s: State, steps: seq<Step>, strict: bool)
    requires Legal(s, steps) && WritersSound(s) && OksCovered(s, strict)
    requires strict ==> NoDowngrade(s, steps)
    ensures WritersSound(Play(s, steps)) && OksCovered(Play(s, steps), strict)
    decreases |steps|
  {
    hide WritersSound, OksCovered, Enabled, Apply, Downgrade;
    if steps == [] {
    } else {
      WritersStaySound(s, steps[0]);
      OksStayCovered(s, steps[0], strict);
      PlayKeepsCover(Apply(s, steps[0]), steps[1..], strict);
    }
  }

  /** No lost reload: in every interleaving, with any failures, a request that returned Ok has a
      request for the same owner still pending or claimed after it began. */
  lemma NoRequestIsLost(owner: nat, leftover: Option<string>, steps: seq<Step>, w: nat)
    requires owner <= U32_MAX && Legal(Initial(owner, leftover), steps)
    requires AtStage(Play(Initial(owner, leftover), steps), w, Returned(true))
    ensures var s := Play(Initial(owner, leftover), steps);
            || Pending(s).Some?
            || exists i :: s.writers[w].began <= i < |s.claims| && RequestFor(s.owner, s.claims[i].text).Some?
  {
    PlayKeepsCover(Initial(owner, leftover), steps, false);
    var s := Play(Initial(owner, leftover), steps);
    assert Covered(s, s.writers[w].began, 1);
  }

  /** Open dominates reload: with no downgrade, the covering request asks for at least as much. */
  lemma OpenDominatesReload(owner: nat, leftover: Option<string>, steps: seq<Step>, w: nat)
    requires owner <= U32_MAX && Legal(Initial(owner, leftover), steps)
    requires NoDowngrade(Initial(owner, leftover), steps)
    requires AtStage(Play(Initial(owner, leftover), steps), w, Returned(true))
    ensures var s := Play(Initial(owner, leftover), steps);
            Covered(s, s.writers[w].began, Strength(Some(s.writers[w].action)))
  {
    PlayKeepsCover(Initial(owner, leftover), steps, true);
  }

  ghost predicate NoClaim(steps: seq<Step>) {
    forall i :: 0 <= i < |steps| ==> !(steps[i].Claim? && steps[i].ok)
  }

  /** Between two claims the pending request only strengthens. */
  lemma {:induction false} PendingOnlyStrengthens(s: State, steps: seq<Step>)
    requires Legal(s, steps) && WritersSound(s) && NoDowngrade(s, steps) && NoClaim(steps)
    ensures Strength(Pending(Play(s, steps))) >= Strength(Pending(s))
    decreases |steps|
  {
    hide WritersSound, Enabled, Apply, Downgrade, Pending;
    if steps == [] {
    } else {
      assert !(steps[0].Claim? && steps[0].ok);
      StrengthFallsExactly(s, steps[0]);
      WritersStaySound(s, steps[0]);
      PendingOnlyStrengthens(Apply(s, steps[0]), steps[1..]);
    }
  }

  /** The pending request never weakens during the run, except when it is claimed. */
  ghost predicate NeverWeakens(s: State, steps: seq<Step>)
    requires Legal(s, steps)
    decreases |steps|
  {
    steps == []
    || (&& (Strength(Pending(Apply(s, steps[0]))) >= Strength(Pending(s)) || Claims(s, steps[0]))
        && NeverWeakens(Apply(s, steps[0]), steps[1..]))
  }

  /** Over whole runs: open dominates reload if and only if no reload-only writer renames over a pending
      request to open. */
  lemma {:induction false} NeverWeakensExactly(s: State, steps: seq<Step>)
    requires Legal(s, steps) && WritersSound(s)
    ensures NeverWeakens(s, steps) <==> NoDowngrade(s, steps)
    decreases |steps|
  {
    hide WritersSound, Enabled, Apply, Pending;
    if steps == [] {
    } else {
      StrengthFallsExactly(s, steps[0]);
      WritersStaySound(s, steps[0]);
      NeverWeakensExactly(Apply(s, steps[0]), steps[1..]);
    }
  }

  // ---------------------------------------------------------------------
  // The downgrade does happen
  // ---------------------------------------------------------------------

  /** Two reload-only writers and one poll meet in an empty mailbox: the first writer's link finds
      the second one's request in place, and a poll claims it before the first writer looks again.
      A request to open is then published and overwritten. */
  const RACE := [
    Begin(1, ReloadOnly), Peek(1, true), WriteTemp(1, true),
    Begin(2, ReloadOnly), Peek(2, true), WriteTemp(2, true), Link(2, true), Link(1, true),
    BeginPoll(1), Claim(1, true), Recheck(1, true),
    Begin(3, ReloadAndOpen), WriteTemp(3, true), Replace(3, true), Replace(1, true)]

  lemma {:induction false} PlayConcat(s: State, first: seq<Step>, second: seq<Step>)
    requires Legal(s, first) && Legal(Play(s, first), second)
    ensures Legal(s, first + second) && Play(s, first + second) == Play(Play(s, first), second)
    decreases |first|
  {
    hide Enabled, Apply;
    if first == [] {
      assert first + second == second;
    } else {
      assert (first + second)[0] == first[0] && (first + second)[1..] == first[1..] + second;
      PlayConcat(Apply(s, first[0]), first[1..], second);
    }
  }

  /** One more step of a run. */
  lemma Next(start: State, steps: seq<Step>, k: nat, s: State) returns (t: State)
    requires k < |steps| && Legal(start, steps[..k]) && Play(start, steps[..k]) == s && Enabled(s, steps[k])
    ensures Legal(start, steps[..k + 1]) && Play(start, steps[..k + 1]) == t == Apply(s, steps[k])
  {
    hide Enabled, Apply;
    t := Apply(s, steps[k]);
    assert [steps[k]][1..] == [] && Play(t, []) == t;
    assert Legal(s, [steps[k]]) && Play(s, [steps[k]]) == t;
    PlayConcat(start, steps[..k], [steps[k]]);
    assert steps[..k + 1] == steps[..k] + [steps[k]];
  }

  lemma RaceReachesFallback(start: State) returns (s: State)
    requires start == Initial(start.owner, None) && start.owner <= U32_MAX
    ensures Legal(start, RACE[..11]) && Play(start, RACE[..11]) == s
    ensures s.path == None && s.owner == start.owner && 3 !in s.writers
    ensures s.claims == [File(2, FormatRequest(s.owner, ReloadOnly))]
    ensures AtStage(s, 1, Replacing) && s.writers[1].action == ReloadOnly
    ensures s.writers[1].temp.text == FormatRequest(s.owner, ReloadOnly)
  {
    hide FormatRequest, ParseRequest, Legal, Play;
    RequestRoundTrips(start.owner, ReloadOnly);
    assert RACE[..0] == [];
    NothingPlayed(start);
    s := start;
    s := Next(start, RACE, 0, s);
    s := Next(start, RACE, 1, s);
    s := Next(start, RACE, 2, s);
    s := Next(start, RACE, 3, s);
    s := Next(start, RACE, 4, s);
    s := Next(start, RACE, 5, s);
    s := Next(start, RACE, 6, s);
    s := Next(start, RACE, 7, s);
    s := Next(start, RACE, 8, s);
    s := Next(start, RACE, 9, s);
    s := Next(start, RACE, 10, s);
  }

  /** With no stale file and no failing operation, a request to open can still be lost: the writer
      returned Ok, and only reloads are pending or were ever claimed. */
  lemma OpenCanBeLost(owner: nat)
    requires owner <= U32_MAX
    ensures Legal(Initial(owner, None), RACE)
    ensures var s := Play(Initial(owner, None), RACE);
            && AtStage(s, 3, Returned(true)) && s.writers[3].action == ReloadAndOpen
            && Pending(s) == Some(ReloadOnly)
            && !Covered(s, 0, Strength(Some(ReloadAndOpen)))
  {
    hide FormatRequest, ParseRequest, Legal, Play;
    RequestRoundTrips(owner, ReloadOnly);
    var start := Initial(owner, None);
    var s := RaceReachesFallback(start);
    s := Next(start, RACE, 11, s);
    s := Next(start, RACE, 12, s);
    s := Next(start, RACE, 13, s);
    s := Next(start, RACE, 14, s);
    assert RACE[..15] == RACE;
  }

  lemma NothingPlayed(s: State)
    ensures Legal(s, []) && Play(s, []) == s
  {
  }
}
