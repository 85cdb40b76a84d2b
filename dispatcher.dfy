/**
 * bot.go: the Telegram front end. Chat commands and job completions reach
 * the bot's loop as one stream of events; the loop keeps a single `isBusy`
 * flag so that at most one `up` or `down` job runs at a time.
 */
module Dispatcher {
  import opened Wrappers
  import opened Provider
  import opened Failures
  import opened Lifecycle
  import Workflows

  /**
   * An incoming chat message: its chat, whether it is a bot command, and
   * the command's text without the leading '/', "@botname" suffix included.
   */
  datatype Message = Message(chat: int, isCommand: bool, commandWithAt: string)

  /** What the loop's `select` receives: an update (whose message may be nil) or a job's result. */
  datatype Event = Update(message: Option<Message>) | WorkDone(err: Option<Failure>)

  datatype Job = UpJob | DownJob

  /** A message the bot sends to a chat. */
  datatype Outgoing = Outgoing(chat: int, text: string)

  datatype BotConfig = BotConfig(targetChat: int, upCfg: UpConfig, downCfg: DownConfig)

  /** The commands the bot answers to. */
  const Allowed: seq<string> := ["up", "down", "ping"]

  const NotPermitted := "I'm not permitted to work with you"
  const Busy := "I'm busy"
  const Pong := "pong"
  const Done := "Done!"

  /** `checkCmdValid`: `cmd` is an allowed command, bare or addressed to `suffix`. */
  function CheckCmdValid(cmd: string, allowed: seq<string>, suffix: string): (r: bool)
    ensures r <==> exists i :: 0 <= i < |allowed| && (cmd == allowed[i] || cmd == allowed[i] + "@" + suffix)
  {
    if allowed == [] then false
    else if cmd == allowed[0] || cmd == allowed[0] + "@" + suffix then true
    else
      var rest := CheckCmdValid(cmd, allowed[1..], suffix);
      assert forall i :: 1 <= i < |allowed| ==> allowed[i] == allowed[1..][i - 1];
      rest
  }

  /** Telegram's `Command()`: the command text up to the first '@'. */
  function Command(withAt: string): (r: string)
    ensures r <= withAt && '@' !in r
    ensures r == withAt || withAt[|r|] == '@'
  {
    if withAt == [] || withAt[0] == '@' then []
    else [withAt[0]] + Command(withAt[1..])
  }

  /** A name without '@', with or without an "@suffix" after it, is its own command. */
  lemma {:induction false} CommandOfAddressed(c: string, rest: string)
    requires '@' !in c
    ensures Command(c) == c
    ensures Command(c + "@" + rest) == c
  {
    if c != [] {
      assert c[0] != '@';
      assert (c + "@" + rest)[1..] == c[1..] + "@" + rest;
      CommandOfAddressed(c[1..], rest);
    } else {
      assert (c + "@" + rest)[0] == '@';
    }
  }

  /** A command that passes `checkCmdValid` is one of the allowed names once its suffix is cut. */
  lemma ValidCommandIsAllowed(cmd: string, suffix: string)
    requires CheckCmdValid(cmd, Allowed, suffix)
    ensures Command(cmd) in Allowed
  {
    var i :| 0 <= i < |Allowed| && (cmd == Allowed[i] || cmd == Allowed[i] + "@" + suffix);
    assert '@' !in Allowed[i];
    CommandOfAddressed(Allowed[i], suffix);
  }

  /** A message the loop acts on: present, a command, and one of ours. */
  predicate Accepted(m: Option<Message>, botName: string) {
    m.Some? && m.value.isCommand && CheckCmdValid(m.value.commandWithAt, Allowed, botName)
  }

  /** The outcome of one event: the new `isBusy`, the messages sent and the jobs started. */
  datatype Reaction = Reaction(busy: bool, sent: seq<Outgoing>, started: seq<Job>)

  /** One iteration of the `bot` loop, with `busy` the value of `isBusy` before it. */
  function Step(cfg: BotConfig, botName: string, busy: bool, e: Event): (r: Reaction)
    // Messages that are nil, not commands or not ours are ignored.
    ensures e.Update? && !Accepted(e.message, botName) ==> r == Reaction(busy, [], [])
    // Other chats are refused and never start a job.
    ensures e.Update? && Accepted(e.message, botName) && e.message.value.chat != cfg.targetChat ==>
              r == Reaction(busy, [Outgoing(e.message.value.chat, NotPermitted)], [])
    // While busy, every command of the target chat, "ping" included, is answered "I'm busy".
    ensures e.Update? && Accepted(e.message, botName) && e.message.value.chat == cfg.targetChat && busy ==>
              r == Reaction(true, [Outgoing(cfg.targetChat, Busy)], [])
    // When idle, "up" and "down" start exactly their job and make the bot busy; "ping" answers "pong".
    ensures e.Update? && Accepted(e.message, botName) && e.message.value.chat == cfg.targetChat && !busy ==>
              var cmd := Command(e.message.value.commandWithAt);
              && (cmd == "up" ==> r == Reaction(true, [], [UpJob]))
              && (cmd == "down" ==> r == Reaction(true, [], [DownJob]))
              && (cmd == "ping" ==> r == Reaction(false, [Outgoing(cfg.targetChat, Pong)], []))
    // A finished job reports its error or "Done!" to the target chat and frees the bot.
    ensures e.WorkDone? ==>
              && r.busy == false && r.started == []
              && r.sent == [Outgoing(cfg.targetChat, if e.err.Some? then Text(e.err.value) else Done)]
    // Hence: a job starts only when idle, and one event sends at most one message.
    ensures r.started != [] ==> !busy && r.busy && |r.started| == 1
    ensures |r.sent| <= 1
  {
    match e
    case WorkDone(err) =>
      Reaction(false, [Outgoing(cfg.targetChat, if err.Some? then Text(err.value) else Done)], [])
    case Update(m) =>
      if !Accepted(m, botName) then Reaction(busy, [], [])
      else if m.value.chat != cfg.targetChat then Reaction(busy, [Outgoing(m.value.chat, NotPermitted)], [])
      else if busy then Reaction(busy, [Outgoing(m.value.chat, Busy)], [])
      else
        var cmd := Command(m.value.commandWithAt);
        if cmd == "up" then Reaction(true, [], [UpJob])
        else if cmd == "down" then Reaction(true, [], [DownJob])
        else if cmd == "ping" then Reaction(busy, [Outgoing(cfg.targetChat, Pong)], [])
        else Reaction(busy, [], [])
  }

  /** An accepted command from the target chat always gets a job or a reply. */
  lemma AcceptedCommandAnswered(cfg: BotConfig, botName: string, busy: bool, m: Message)
    requires Accepted(Some(m), botName) && m.chat == cfg.targetChat
    ensures var r := Step(cfg, botName, busy, Update(Some(m)));
              r.started != [] || r.sent != []
  {
    ValidCommandIsAllowed(m.commandWithAt, botName);
  }

  /** The loop after `events`, from `isBusy == false` with nothing sent or started. */
  function Run(cfg: BotConfig, botName: string, events: seq<Event>): (r: Reaction)
    ensures |r.sent| <= |events| && |r.started| <= |events|
  {
    if events == [] then Reaction(false, [], [])
    else
      var prev := Run(cfg, botName, events[..|events| - 1]);
      var step := Step(cfg, botName, prev.busy, events[|events| - 1]);
      Reaction(step.busy, prev.sent + step.sent, prev.started + step.started)
  }

  /** The number of job results among `events`. */
  function Completions(events: seq<Event>): (n: nat)
    ensures n <= |events|
  {
    if events == [] then 0
    else Completions(events[..|events| - 1]) + (if events[|events| - 1].WorkDone? then 1 else 0)
  }

  /** Jobs started and not yet reported back. */
  function InFlight(cfg: BotConfig, botName: string, events: seq<Event>): int {
    |Run(cfg, botName, events).started| - Completions(events)
  }

  /**
   * A stream the runtime can deliver: a job's result arrives on `workCh`
   * only while that job is running.
   */
  ghost predicate Feasible(cfg: BotConfig, botName: string, events: seq<Event>) {
    forall n :: 0 <= n < |events| && events[n].WorkDone? ==> InFlight(cfg, botName, events[..n]) > 0
  }

  /** The loop's invariant: at most one job is in flight, and `isBusy` holds exactly when one is. */
  lemma {:induction false} SingleJob(cfg: BotConfig, botName: string, events: seq<Event>)
    requires Feasible(cfg, botName, events)
    ensures 0 <= InFlight(cfg, botName, events) <= 1
    ensures Run(cfg, botName, events).busy <==> InFlight(cfg, botName, events) == 1
  {
    if events != [] {
      var init := events[..|events| - 1];
      assert forall n :: 0 <= n < |init| ==> init[..n] == events[..n];
      SingleJob(cfg, botName, init);
    }
  }

  /** No job starts while another is in flight. */
  lemma NoOverlap(cfg: BotConfig, botName: string, events: seq<Event>, n: nat)
    requires Feasible(cfg, botName, events) && n < |events|
    requires Step(cfg, botName, Run(cfg, botName, events[..n]).busy, events[n]).started != []
    ensures InFlight(cfg, botName, events[..n]) == 0
  {
    var pre := events[..n];
    assert forall k :: 0 <= k < |pre| ==> pre[..k] == events[..k];
    SingleJob(cfg, botName, pre);
  }

  /**
   * Two "/up" commands from the target chat with no result between them
   * start one job; the second is answered "I'm busy".
   */
  lemma SecondUpIsBusy(cfg: BotConfig, botName: string, m: Message)
    requires m.chat == cfg.targetChat && m.isCommand
    requires m.commandWithAt == "up" || m.commandWithAt == "up@" + botName
    ensures var r := Run(cfg, botName, [Update(Some(m)), Update(Some(m))]);
              r == Reaction(true, [Outgoing(cfg.targetChat, Busy)], [UpJob])
  {
    assert Allowed[0] == "up";
    assert CheckCmdValid(m.commandWithAt, Allowed, botName);
    CommandOfAddressed("up", botName);
    assert "up" + "@" + botName == "up@" + botName;
    assert Command(m.commandWithAt) == "up";
    var e := Update(Some(m));
    assert [e, e][..1] == [e] && [e][..0] == [];
    assert Run(cfg, botName, [e]) == Reaction(true, [], [UpJob]);
  }

  /**
   * Commands from other chats never start a job, whatever their text; each
   * reply they get goes back to the sender as a refusal.
   */
  lemma {:induction false} ForeignChatsStartNothing(cfg: BotConfig, botName: string, events: seq<Event>)
    requires forall n :: 0 <= n < |events| ==>
               events[n].Update? && (events[n].message.Some? ==> events[n].message.value.chat != cfg.targetChat)
    ensures var r := Run(cfg, botName, events);
              && r.started == [] && !r.busy
              && forall j :: 0 <= j < |r.sent| ==> r.sent[j].text == NotPermitted && r.sent[j].chat != cfg.targetChat
  {
    if events != [] {
      ForeignChatsStartNothing(cfg, botName, events[..|events| - 1]);
    }
  }

  /** The loop after one more event is the previous loop followed by one `Step`. */
  lemma RunExtends(cfg: BotConfig, botName: string, events: seq<Event>, i: nat)
    requires i < |events|
    ensures var prev := Run(cfg, botName, events[..i]);
            var step := Step(cfg, botName, prev.busy, events[i]);
              Run(cfg, botName, events[..i + 1]) == Reaction(step.busy, prev.sent + step.sent, prev.started + step.started)
  {
    assert events[..i + 1][..i] == events[..i];
  }

  /**
   * One turn of the `bot` loop on event `e`, with `busy` the value of
   * `isBusy` before it: the new `isBusy`, what it sends and what it starts.
   */
  method Handle(cfg: BotConfig, botName: string, busy: bool, e: Event)
    returns (nowBusy: bool, sent: seq<Outgoing>, started: seq<Job>)
    ensures Reaction(nowBusy, sent, started) == Step(cfg, botName, busy, e)
  {
    nowBusy, sent, started := busy, [], [];
    match e {
      case WorkDone(err) =>
        if err.Some? {
          sent := [Outgoing(cfg.targetChat, Text(err.value))];
        } else {
          sent := [Outgoing(cfg.targetChat, Done)];
        }
        nowBusy := false;
      case Update(m) =>
        if m.Some? && m.value.isCommand && CheckCmdValid(m.value.commandWithAt, Allowed, botName) {
          var chat := m.value.chat;
          if chat != cfg.targetChat {
            sent := [Outgoing(chat, NotPermitted)];
          } else if busy {
            sent := [Outgoing(chat, Busy)];
          } else {
            var cmd := Command(m.value.commandWithAt);
            if cmd == "up" {
              started := [UpJob];
              nowBusy := true;
            }
            if cmd == "down" {
              started := [DownJob];
              nowBusy := true;
            }
            if cmd == "ping" {
              sent := [Outgoing(cfg.targetChat, Pong)];
            }
          }
        }
    }
  }

  /**
   * The `bot` loop over the events it receives, with `isBusy` as a local
   * variable; it returns what it has sent and which jobs it has started.
   */
  method Serve(cfg: BotConfig, botName: string, events: seq<Event>)
    returns (busy: bool, sent: seq<Outgoing>, started: seq<Job>)
    ensures Reaction(busy, sent, started) == Run(cfg, botName, events)
  {
    busy := false;
    sent := [];
    started := [];
    var i := 0;
    while i < |events|
      invariant 0 <= i <= |events|
      invariant Reaction(busy, sent, started) == Run(cfg, botName, events[..i])
    {
      RunExtends(cfg, botName, events, i);
      var nowBusy, out, jobs := Handle(cfg, botName, busy, events[i]);
      busy, sent, started := nowBusy, sent + out, started + jobs;
      i := i + 1;
    }
    assert events[..|events|] == events;
  }

  /**
   * `runAction` with the bot's `upAction` / `downAction`: run the job's
   * workflow against the account and report its result as the event the
   * loop receives from `workCh`.
   */
  method RunAction(p: Account, cfg: BotConfig, job: Job) returns (done: Event)
    modifies p
    ensures done.WorkDone?
    ensures old(p.trace) <= p.trace
    ensures job.UpJob? ==>
              var es := p.trace[|old(p.trace)|..];
              && UpCalls(es, cfg.upCfg, old(p.droplets), old(p.snapshots), old(p.projects))
              && StopsAtFirstFailure(es)
              && UpVerdict(es, done.err, cfg.upCfg, old(p.droplets), old(p.snapshots), old(p.projects))
    ensures job.DownJob? ==>
              var es := p.trace[|old(p.trace)|..];
              && DownCalls(es, cfg.downCfg, old(p.droplets), old(p.snapshots), old(p.records), p.snapshots, p.droplets)
              && StopsAtFirstFailureIgnoringWaits(es)
              && DownResult(es, done.err, cfg.downCfg, old(p.droplets), old(p.records))
  {
    var err: Option<Failure>;
    ghost var es: seq<Entry>;
    match job {
      case UpJob =>
        err, es := Workflows.Up(p, cfg.upCfg);
      case DownJob =>
        err, es := Workflows.Down(p, cfg.downCfg);
    }
    assert p.trace[|old(p.trace)|..] == es;
    return WorkDone(err);
  }
}
