/** The GUI activation mailbox as a state machine over single file operations
    (src/platform/macos/activation.rs): writers and polls of one owner, interleaved arbitrarily. */
module MailboxModel {
  import opened Prelude
  import opened RequestText

  /** A published or pending file. Every write makes a new file, told apart by its serial. */
  datatype File = File(serial: nat, text: string)

  /** Where a writer is in `write_request` and `publish_request`. */
  datatype WriterStage =
    | Peeking      // reload only: looking for a pending request to coalesce with
    | Writing      // about to write the temporary file
    | Linking      // reload only: about to hard-link the temporary file into place
    | Rechecking   // the link found a file in place
    | Replacing    // about to rename the temporary file over the mailbox
    | Returned(ok: bool)

  /** `began` is how many claims had been made when the request began. */
  datatype Writer = Writer(action: Action, stage: WriterStage, temp: File, began: nat)

  /** Where a poll is in `ActivationInbox::poll`. */
  datatype PollStage =
    | Claiming
    | Reading(claimed: File)
    | Removing(read: File)
    | Answered(answer: Option<Action>)
    | PollFailed

  datatype State = State(
    owner: nat,
    path: Option<File>,
    writers: map<nat, Writer>,
    polls: map<nat, PollStage>,
    claims: seq<File>,      // every file a poll has claimed, in order
    delivered: seq<File>,   // every file whose action a poll has returned
    nextSerial: nat)

  /** One atomic file operation and its outcome, by writer `w` or poll `p`. */
  datatype Step =
    | Begin(w: nat, action: Action)
    | Peek(w: nat, readable: bool)
    | WriteTemp(w: nat, ok: bool)
    | Link(w: nat, ok: bool)
    | Recheck(w: nat, readable: bool)
    | Replace(w: nat, ok: bool)
    | BeginPoll(p: nat)
    | Claim(p: nat, ok: bool)
    | Read(p: nat, readable: bool)
    | Remove(p: nat, ok: bool)

  /** The request in a file that is addressed to the owner, if any. */
  function RequestFor(owner: nat, text: string): Option<Action> {
    match ParseRequest(text)
    case Some(request) => if request.targetPid == owner then Some(request.action) else None
    case None => None
  }

  function Pending(s: State): Option<Action> {
    if s.path.None? then None else RequestFor(s.owner, s.path.value.text)
  }

  function Initial(owner: nat, leftover: Option<string>): State {
    State(owner, if leftover.None? then None else Some(File(0, leftover.value)), map[], map[], [], [], 1)
  }

  predicate AtStage(s: State, w: nat, stage: WriterStage) {
    w in s.writers && s.writers[w].stage == stage
  }

  function Go(s: State, w: nat, stage: WriterStage): State
    requires w in s.writers
  {
    s.(writers := s.writers[w := s.writers[w].(stage := stage)])
  }

  function GoPoll(s: State, p: nat, stage: PollStage): State {
    s.(polls := s.polls[p := stage])
  }

  predicate Enabled(s: State, step: Step) {
    match step
    case Begin(w, _) => w !in s.writers
    case Peek(w, _) => AtStage(s, w, Peeking)
    case WriteTemp(w, _) => AtStage(s, w, Writing)
    case Link(w, _) => AtStage(s, w, Linking)
    case Recheck(w, _) => AtStage(s, w, Rechecking)
    case Replace(w, _) => AtStage(s, w, Replacing)
    case BeginPoll(p) => p !in s.polls
    case Claim(p, _) => p in s.polls && s.polls[p].Claiming?
    case Read(p, _) => p in s.polls && s.polls[p].Reading?
    case Remove(p, _) => p in s.polls && s.polls[p].Removing?
  }

  /** A publication puts the writer's temporary file in place and ends the request. */
  function Publish(s: State, w: nat): State
    requires w in s.writers
  {
    Go(s, w, Returned(true)).(path := Some(s.writers[w].temp))
  }

  function Apply(s: State, step: Step): State
    requires Enabled(s, step)
  {
    match step
    case Begin(w, action) =>
      var stage := if action.ReloadOnly? then Peeking else Writing;
      s.(writers := s.writers[w := Writer(action, stage, File(0, ""), |s.claims|)])
    case Peek(w, readable) =>
      if readable && Pending(s).Some? then Go(s, w, Returned(true)) else Go(s, w, Writing)
    case WriteTemp(w, ok) =>
      if !ok then Go(s, w, Returned(false))
      else
        var writer := s.writers[w];
        var temp := File(s.nextSerial, FormatRequest(s.owner, writer.action));
        var stage := if writer.action.ReloadOnly? then Linking else Replacing;
        s.(writers := s.writers[w := writer.(temp := temp, stage := stage)], nextSerial := s.nextSerial + 1)
    case Link(w, ok) =>
      if !ok then Go(s, w, Returned(false))
      else if s.path.Some? then Go(s, w, Rechecking)
      else Publish(s, w)
    case Recheck(w, readable) =>
      if readable && Pending(s).Some? then Go(s, w, Returned(true)) else Go(s, w, Replacing)
    case Replace(w, ok) =>
      if ok then Publish(s, w) else Go(s, w, Returned(false))
    case BeginPoll(p) => GoPoll(s, p, Claiming)
    case Claim(p, ok) =>
      if !ok then GoPoll(s, p, PollFailed)
      else if s.path.None? then GoPoll(s, p, Answered(None))
      else GoPoll(s, p, Reading(s.path.value)).(path := None, claims := s.claims + [s.path.value])
    case Read(p, readable) =>
      GoPoll(s, p, if readable then Removing(s.polls[p].claimed) else PollFailed)
    case Remove(p, ok) =>
      var file := s.polls[p].read;
      if !ok || ParseRequest(file.text).None? then GoPoll(s, p, PollFailed)
      else
        var answer := RequestFor(s.owner, file.text);
        GoPoll(s, p, Answered(answer)).(delivered := if answer.Some? then s.delivered + [file] else s.delivered)
  }

  predicate Legal(s: State, steps: seq<Step>)
    decreases |steps|
  {
    steps == [] || (Enabled(s, steps[0]) && Legal(Apply(s, steps[0]), steps[1..]))
  }

  function Play(s: State, steps: seq<Step>): State
    requires Legal(s, steps)
    decreases |steps|
  {
    if steps == [] then s else Play(Apply(s, steps[0]), steps[1..])
  }
}
