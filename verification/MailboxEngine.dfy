/** The mailbox operations as the source runs them, one file operation at a time, with other
    processes acting in between (src/platform/macos/activation.rs). */
module MailboxEngine {
  import opened Prelude
  import opened RequestText
  import opened MailboxModel
  import opened MailboxLaws
  import opened MailboxDelivery

  /** What happens around one file operation: what others do just before it, and whether it succeeds. */
  datatype Moment = Moment(before: seq<Step>, ok: bool)

  datatype Actor = AWriter(w: nat) | APoll(p: nat)

  function ActorOf(step: Step): Actor {
    match step
    case Begin(w, _) => AWriter(w)
    case Peek(w, _) => AWriter(w)
    case WriteTemp(w, _) => AWriter(w)
    case Link(w, _) => AWriter(w)
    case Recheck(w, _) => AWriter(w)
    case Replace(w, _) => AWriter(w)
    case BeginPoll(p) => APoll(p)
    case Claim(p, _) => APoll(p)
    case Read(p, _) => APoll(p)
    case Remove(p, _) => APoll(p)
  }

  /** An actor's own progress is as before. */
  predicate SameFor(actor: Actor, s: State, t: State) {
    match actor
    case AWriter(w) =>
      (w in s.writers <==> w in t.writers) && (w in s.writers ==> s.writers[w] == t.writers[w])
    case APoll(p) => (p in s.polls <==> p in t.polls) && (p in s.polls ==> s.polls[p] == t.polls[p])
  }

  /** Claims are only added, and the owner is fixed. */
  predicate Later(s: State, t: State) {
    s.owner == t.owner && s.claims <= t.claims
  }

  ghost predicate Sound(s: State) {
    WritersSound(s) && OksCovered(s, false) && Tidy(s)
  }

  lemma InitialIsSound(owner: nat, leftover: Option<string>)
    requires owner <= U32_MAX
    ensures Sound(Initial(owner, leftover))
  {
  }

  lemma StepFrames(s: State, step: Step, actor: Actor)
    requires Enabled(s, step)
    ensures Later(s, Apply(s, step)) && (actor != ActorOf(step) ==> SameFor(actor, s, Apply(s, step)))
  {
    hide ParseRequest, FormatRequest;
  }

  lemma StepIsSound(s: State, step: Step)
    requires Enabled(s, step) && Sound(s)
    ensures Sound(Apply(s, step))
  {
    hide Apply, Enabled, WritersSound, OksCovered, Tidy;
    WritersStaySound(s, step);
    OksStayCovered(s, step, false);
    TidyStays(s, step);
  }

  /** The step with which a request returns Ok covers it at its own strength. */
  lemma Covers(s: State, step: Step, w: nat)
    requires Sound(s) && Enabled(s, step) && w in s.writers && !s.writers[w].stage.Returned?
    requires AtStage(Apply(s, step), w, Returned(true))
    ensures Covered(Apply(s, step), s.writers[w].began, Strength(Some(s.writers[w].action)))
  {
    hide WritersSound, OksCovered, Tidy, Covered, Apply, Enabled;
    ReturnIsCovered(s, step, w);
  }

  lemma ClaimIsFirst(s: State, i: nat)
    requires Sound(s) && i < |s.claims|
    ensures forall k :: 0 <= k < i ==> s.claims[k].serial != s.claims[i].serial
  {
    hide WritersSound, OksCovered;
    forall k: nat | k < i ensures s.claims[k].serial != s.claims[i].serial {
      assert Holds(s, Claimed(k)) == Some(s.claims[k]) && Holds(s, Claimed(i)) == Some(s.claims[i]);
    }
  }

  class Mailbox {
    var state: State

    ghost predicate Valid()
      reads this
    {
      Sound(state)
    }

    constructor (owner: nat, leftover: Option<string>)
      requires owner <= U32_MAX
      ensures Valid() && state == Initial(owner, leftover)
    {
      state := Initial(owner, leftover);
      InitialIsSound(owner, leftover);
    }

    /** One file operation. */
    method Do(step: Step)
      requires Valid() && Enabled(state, step)
      modifies this
      ensures Valid() && state == Apply(old(state), step) && Later(old(state), state)
    {
      hide Sound, Apply, Enabled;
      StepIsSound(state, step);
      StepFrames(state, step, ActorOf(step));
      state := Apply(state, step);
    }

    /** Whatever other actors do meanwhile; a step they cannot take is skipped. */
    method Others(steps: seq<Step>, actor: Actor)
      requires Valid()
      modifies this
      ensures Valid() && Later(old(state), state) && SameFor(actor, old(state), state)
      ensures steps == [] ==> state == old(state)
    {
      hide Sound, Apply, Enabled;
      for i := 0 to |steps|
        invariant Valid() && Later(old(state), state) && SameFor(actor, old(state), state)
        invariant steps == [] ==> state == old(state)
      {
        if Enabled(state, steps[i]) && ActorOf(steps[i]) != actor {
          StepFrames(state, steps[i], actor);
          Do(steps[i]);
        }
      }
    }

    /** `fs::read_to_string(path).ok()` */
    function Contents(readable: bool): Option<string>
      reads this
    {
      if readable && state.path.Some? then Some(state.path.value.text) else None
    }

    function IsForOwner(contents: Option<string>): bool
      reads this
    {
      contents.Some? && RequestFor(state.owner, contents.value).Some?
    }

    /** An Ok leaves a request for the owner of at least its own strength pending or claimed since the
        call, whatever others do meanwhile. */
    method WriteRequest(w: nat, action: Action, moments: seq<Moment>) returns (ok: bool)
      requires Valid() && w !in state.writers && |moments| == 5
      modifies this
      ensures Valid() && Later(old(state), state) && AtStage(state, w, Returned(ok))
      ensures state.writers[w].action == action
      ensures ok ==> Covered(state, |old(state).claims|, Strength(Some(action)))
    {
      hide Sound, FormatRequest, ParseRequest, RequestFor, Covered;
      var me := AWriter(w);
      Do(Begin(w, action));
      if action == ReloadOnly {
        Others(moments[0].before, me);
        var contents := Contents(moments[0].ok);
        ghost var before := state;
        Do(Peek(w, moments[0].ok));
        if IsForOwner(contents) {
          Covers(before, Peek(w, moments[0].ok), w);
          return true;
        }
      }
      Others(moments[1].before, me);
      Do(WriteTemp(w, moments[1].ok));
      if !moments[1].ok {
        return false;
      }
      ok := PublishRequest(w, moments[2..]);
    }

    method PublishRequest(w: nat, moments: seq<Moment>) returns (ok: bool)
      requires Valid() && |moments| == 3
      requires w in state.writers
      requires state.writers[w].stage == if state.writers[w].action == ReloadOnly then Linking else Replacing
      modifies this
      ensures Valid() && Later(old(state), state) && AtStage(state, w, Returned(ok))
      ensures state.writers[w] == old(state).writers[w].(stage := Returned(ok))
      ensures ok ==> Covered(state, state.writers[w].began, Strength(Some(state.writers[w].action)))
    {
      hide Sound, FormatRequest, ParseRequest, RequestFor, Covered;
      var me := AWriter(w);
      ghost var before;
      if state.writers[w].action == ReloadOnly {
        Others(moments[0].before, me);
        var alreadyExists := state.path.Some?;
        before := state;
        Do(Link(w, moments[0].ok));
        if !moments[0].ok {
          return false;
        }
        if !alreadyExists {
          Covers(before, Link(w, moments[0].ok), w);
          return true;
        }
        Others(moments[1].before, me);
        var contents := Contents(moments[1].ok);
        before := state;
        Do(Recheck(w, moments[1].ok));
        if IsForOwner(contents) {
          Covers(before, Recheck(w, moments[1].ok), w);
          return true;
        }
      }
      Others(moments[2].before, me);
      before := state;
      Do(Replace(w, moments[2].ok));
      ok := moments[2].ok;
      if ok {
        Covers(before, Replace(w, moments[2].ok), w);
      }
    }

    /** A poll claims at most one file, one no poll claimed before, and answers with its action exactly when
        it reads as a request to the owner: a request to another process is used up and answered with none.
        It fails exactly when a file operation fails or the claimed file does not parse. */
    method Poll(p: nat, moments: seq<Moment>)
      returns (answer: Result<Option<Action>, ()>, ghost claimed: Option<File>)
      requires Valid() && p !in state.polls && |moments| == 3
      modifies this
      ensures Valid() && Later(old(state), state)
      ensures claimed.Some? ==>
        exists i :: |old(state).claims| <= i < |state.claims| && state.claims[i] == claimed.value
          && forall k :: 0 <= k < i ==> state.claims[k].serial != claimed.value.serial
      ensures moments[0].before == [] && moments[0].ok ==> claimed == old(state).path
      ensures answer.Err? <==>
        !moments[0].ok
        || (claimed.Some? && !(moments[1].ok && moments[2].ok && ParseRequest(claimed.value.text).Some?))
      ensures answer.Ok? ==>
        forall action :: answer.value == Some(action) <==>
          claimed.Some? && ParseRequest(claimed.value.text) == Some(Request(state.owner, action))
      ensures p in state.polls
      ensures state.polls[p] == match answer case Ok(action) => Answered(action) case Err(_) => PollFailed
    {
      hide Sound, FormatRequest, ParseRequest, RequestFor;
      var me := APoll(p);
      claimed := None;
      Do(BeginPoll(p));
      Others(moments[0].before, me);
      var found := state.path;
      ghost var before := |state.claims|;
      Do(Claim(p, moments[0].ok));
      if !moments[0].ok {
        return Err(()), None;
      }
      if found.None? {
        return Ok(None), None;
      }
      claimed := found;
      assert state.claims[before] == found.value;
      answer := Consume(p, found.value, moments[1..]);
      ClaimIsFirst(state, before);
    }

    /** The claimed file is read and removed, and its text answers. */
    method Consume(p: nat, claimed: File, moments: seq<Moment>) returns (answer: Result<Option<Action>, ()>)
      requires Valid() && |moments| == 2 && p in state.polls && state.polls[p] == Reading(claimed)
      modifies this
      ensures Valid() && Later(old(state), state)
      ensures answer.Err? <==> !(moments[0].ok && moments[1].ok && ParseRequest(claimed.text).Some?)
      ensures answer.Ok? ==>
        forall action :: answer.value == Some(action) <==>
          ParseRequest(claimed.text) == Some(Request(state.owner, action))
      ensures p in state.polls
      ensures state.polls[p] == match answer case Ok(action) => Answered(action) case Err(_) => PollFailed
    {
      hide Sound, FormatRequest, ParseRequest;
      var me := APoll(p);
      Others(moments[0].before, me);
      Do(Read(p, moments[0].ok));
      if !moments[0].ok {
        return Err(());
      }
      Others(moments[1].before, me);
      Do(Remove(p, moments[1].ok));
      var parsed := ParseRequest(claimed.text);
      if !moments[1].ok || parsed.None? {
        return Err(());
      }
      return Ok(if parsed.value.targetPid == state.owner then Some(parsed.value.action) else None);
    }
  }
}
