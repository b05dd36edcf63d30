/**
 The alert handler task of components/alert/alert_manager.c: what one round of its endless loop
 appends and flushes, and what that makes of the backlog over any number of rounds.
 */
module AlertTask {
  import opened Lines
  import opened SdCard
  import opened AlertQueue
  import JsonText

  const FLUSH_PERIOD: nat := 60
  const TOPIC_MAX: nat := 95

  datatype Warning = DoorOpen | Collision

  /** One fired alert: its timestamp, whether cJSON had memory for the line, whether the pending file
      opened, whether MQTT was connected right after, and the environment of the flush that follows. */
  datatype Fired = Fired(timestamp: string, built: bool, opens: bool, connected: bool, env: FlushEnv)

  datatype MaybeFired = Quiet | Alert(fired: Fired)

  /** What one round of the loop observes. */
  datatype Round = Round(containerId: string, doorEnabled: bool, door: MaybeFired, collision: MaybeFired,
                         connected: bool, env: FlushEnv)

  function WarningName(w: Warning): string {
    if w.DoorOpen? then "doorOpen" else "collision"
  }

  function Truncate(s: string, n: nat): string {
    if |s| <= n then s else s[..n]
  }

  /** build_alert_line: topic and JSON payload packed into one JSON object. */
  function AlertLine(containerId: string, w: Warning, timestamp: string): string {
    var payload := JsonText.Print(JsonText.Object([JsonText.Member("timestamp", JsonText.Text(timestamp))]));
    var topic := Truncate("device/" + containerId + "/warning/" + WarningName(w), TOPIC_MAX);
    JsonText.Print(JsonText.Object([JsonText.Member("topic", JsonText.Text(topic)),
                                    JsonText.Member("payload", JsonText.Text(payload))]))
  }

  /** Append first, then flush if connected. */
  function AlertOps(containerId: string, w: Warning, f: Fired): seq<Op> {
    if !f.built then []
    else
      [Raise(AlertLine(containerId, w, f.timestamp), f.opens)] + if f.connected then [Flush(f.env)] else []
  }

  function DoorOps(r: Round): seq<Op> {
    if r.door.Alert? && r.doorEnabled && r.containerId != ""
    then AlertOps(r.containerId, DoorOpen, r.door.fired) else []
  }

  function CollisionOps(r: Round): seq<Op> {
    if r.collision.Alert? && r.containerId != "" then AlertOps(r.containerId, Collision, r.collision.fired) else []
  }

  function PeriodicOps(counter: nat, r: Round): seq<Op> {
    if counter + 1 >= FLUSH_PERIOD && r.connected && r.containerId != "" then [Flush(r.env)] else []
  }

  function RoundOps(counter: nat, r: Round): seq<Op> {
    DoorOps(r) + CollisionOps(r) + PeriodicOps(counter, r)
  }

  function NextCounter(counter: nat): nat {
    if counter + 1 >= FLUSH_PERIOD then 0 else counter + 1
  }

  class AlertHandler {
    var flushCounter: nat
    const card: Card
    ghost var queue: Queue

    /** Without a mounted card append and flush return an error and change nothing. */
    ghost function Effective(ops: seq<Op>): seq<Op>
      reads card
    {
      if card.mounted then ops else []
    }

    ghost predicate Valid()
      reads this, card
    {
      queue.files == card.files
    }

    constructor (card: Card)
      ensures Valid() && this.card == card && flushCounter == 0
      ensures queue == Queue(card.files, [], [], [])
    {
      this.card := card;
      flushCounter := 0;
      queue := Queue(card.files, [], [], []);
    }

    method FlushPending(env: FlushEnv)
      requires Valid()
      modifies this`queue, card`files
      ensures Valid() && queue == Run(old(queue), Effective([Flush(env)]))
    {
      RunOne(queue, Flush(env));
      var status, sent := card.AlertFlush(true, env);
      if card.mounted {
        queue := Apply(queue, Flush(env));
      }
    }

    method HandleAlert(containerId: string, w: Warning, f: Fired)
      requires Valid()
      modifies this`queue, card`files
      ensures Valid() && queue == Run(old(queue), Effective(AlertOps(containerId, w, f)))
    {
      if f.built {
        var line := AlertLine(containerId, w, f.timestamp);
        hide AlertLine;
        var status := card.AppendLine(Alerts, line, f.opens);
        if card.mounted {
          queue := Apply(queue, Raise(line, f.opens));
        }
        RunOne(old(queue), Raise(line, f.opens));
        if f.connected {
          RunOne(queue, Flush(f.env));
          FlushPending(f.env);
          RunTwo(old(queue), Raise(line, f.opens), Flush(f.env));
        }
      }
    }

    /** One round of the loop. */
    method HandleRound(r: Round)
      requires Valid()
      modifies this, card`files
      ensures Valid()
      ensures queue == Run(old(queue), Effective(RoundOps(old(flushCounter), r)))
      ensures flushCounter == NextCounter(old(flushCounter))
      ensures flushCounter == if old(flushCounter) >= 59 then 0 else old(flushCounter) + 1
      ensures card.mounted ==>
                queue.appended == old(queue.appended)
                + (if r.door.Alert? && r.doorEnabled && r.containerId != "" && r.door.fired.built && r.door.fired.opens
                   then [AlertLine(r.containerId, DoorOpen, r.door.fired.timestamp)] else [])
                + (if r.collision.Alert? && r.containerId != "" && r.collision.fired.built && r.collision.fired.opens
                   then [AlertLine(r.containerId, Collision, r.collision.fired.timestamp)] else [])
      ensures !card.mounted ==> queue == old(queue)
    {
      RoundAppends(queue, flushCounter, r);
      Regroup(queue.appended, r);
      RunNothing(queue);
      hide AlertOps, Apply;
      RunAppend(queue, DoorOps(r) + CollisionOps(r), PeriodicOps(flushCounter, r));
      RunAppend(queue, DoorOps(r), CollisionOps(r));
      if r.door.Alert? {
        if r.doorEnabled && r.containerId != "" {
          HandleAlert(r.containerId, DoorOpen, r.door.fired);
        }
      }
      if r.collision.Alert? {
        if r.containerId != "" {
          HandleAlert(r.containerId, Collision, r.collision.fired);
        }
      }
      flushCounter := flushCounter + 1;
      if flushCounter >= FLUSH_PERIOD {
        flushCounter := 0;
        if r.connected && r.containerId != "" {
          FlushPending(r.env);
        }
      }
    }
  }

  // ---------------------------------------------------------------- runs of operations

  lemma RunOne(q: Queue, op: Op)
    ensures Run(q, [op]) == Apply(q, op)
  {
    assert [op][..0] == [];
  }

  lemma RunTwo(q: Queue, a: Op, b: Op)
    ensures Run(q, [a] + [b]) == Apply(Apply(q, a), b)
  {
    hide Apply;
    assert ([a] + [b])[..1] == [a];
    RunOne(q, a);
  }

  lemma {:induction false} RunAppend(q: Queue, a: seq<Op>, b: seq<Op>)
    ensures Run(q, a + b) == Run(Run(q, a), b)
  {
    hide Apply;
    if b == [] {
      assert a + b == a;
    } else {
      assert (a + b)[..|a + b| - 1] == a + b[..|b| - 1];
      RunAppend(q, a, b[..|b| - 1]);
    }
  }

  /** The operations of the first rounds, starting with counter zero. */
  function TaskOps(rounds: seq<Round>): seq<Op> {
    if rounds == [] then []
    else TaskOps(rounds[..|rounds| - 1]) + RoundOps((|rounds| - 1) % FLUSH_PERIOD, rounds[|rounds| - 1])
  }

  function CounterAfter(n: nat): nat {
    if n == 0 then 0 else NextCounter(CounterAfter(n - 1))
  }

  /** The counter is the round number modulo 60: the backlog is retried in every 60th round. */
  lemma {:induction false} CounterIsRoundNumber(n: nat)
    ensures CounterAfter(n) == n % FLUSH_PERIOD
  {
    if n > 0 {
      CounterIsRoundNumber(n - 1);
    }
  }

  lemma AlertLineIsStorable(containerId: string, w: Warning, timestamp: string)
    ensures Storable(AlertLine(containerId, w, timestamp))
  {
    var payload := JsonText.Print(JsonText.Object([JsonText.Member("timestamp", JsonText.Text(timestamp))]));
    var topic := Truncate("device/" + containerId + "/warning/" + WarningName(w), TOPIC_MAX);
    JsonText.PrintedObjectIsStorable([JsonText.Member("topic", JsonText.Text(topic)),
                                      JsonText.Member("payload", JsonText.Text(payload))]);
  }

  lemma RoundOpsAreStorable(counter: nat, r: Round)
    ensures StorableOps(RoundOps(counter, r))
  {
    hide AlertLine, Storable;
    if r.door.Alert? {
      AlertLineIsStorable(r.containerId, DoorOpen, r.door.fired.timestamp);
    }
    if r.collision.Alert? {
      AlertLineIsStorable(r.containerId, Collision, r.collision.fired.timestamp);
    }
  }

  lemma {:induction false} TaskOpsAreStorable(rounds: seq<Round>)
    ensures StorableOps(TaskOps(rounds))
  {
    hide RoundOps, Storable;
    if rounds != [] {
      TaskOpsAreStorable(rounds[..|rounds| - 1]);
      RoundOpsAreStorable((|rounds| - 1) % FLUSH_PERIOD, rounds[|rounds| - 1]);
    }
  }

  /** The alerts a round stores: those fired with a container id set, the door one only while the
      door alert is enabled, and only if the line could be built and the file opened. */
  function Stored(r: Round): seq<string> {
    (if r.door.Alert? && r.doorEnabled && r.containerId != "" && r.door.fired.built && r.door.fired.opens
     then [AlertLine(r.containerId, DoorOpen, r.door.fired.timestamp)] else [])
    + (if r.collision.Alert? && r.containerId != "" && r.collision.fired.built && r.collision.fired.opens
       then [AlertLine(r.containerId, Collision, r.collision.fired.timestamp)] else [])
  }

  function AllStored(rounds: seq<Round>): seq<string> {
    if rounds == [] then [] else AllStored(rounds[..|rounds| - 1]) + Stored(rounds[|rounds| - 1])
  }

  lemma AlertOpsAppend(q: Queue, containerId: string, w: Warning, f: Fired)
    ensures Run(q, AlertOps(containerId, w, f)).appended ==
            q.appended + if f.built && f.opens then [AlertLine(containerId, w, f.timestamp)] else []
  {
    hide AlertLine;
    if f.built {
      var raise := Raise(AlertLine(containerId, w, f.timestamp), f.opens);
      RunOne(q, raise);
      RunTwo(q, raise, Flush(f.env));
    }
  }

  lemma RoundAppends(q: Queue, counter: nat, r: Round)
    ensures Run(q, RoundOps(counter, r)).appended == q.appended + Stored(r)
  {
    hide AlertOps, AlertLine;
    var door, collision, periodic := DoorOps(r), CollisionOps(r), PeriodicOps(counter, r);
    RunAppend(q, door + collision, periodic);
    RunAppend(q, door, collision);
    var q1 := Run(q, door);
    var q2 := Run(q1, collision);
    if r.door.Alert? {
      AlertOpsAppend(q, r.containerId, DoorOpen, r.door.fired);
    }
    if r.collision.Alert? {
      AlertOpsAppend(q1, r.containerId, Collision, r.collision.fired);
    }
    RunOne(q2, Flush(r.env));
  }

  lemma {:induction false} TaskAppends(rounds: seq<Round>)
    ensures Run(FRESH, TaskOps(rounds)).appended == AllStored(rounds)
  {
    hide RoundOps, Stored, Apply;
    if rounds != [] {
      var n := |rounds| - 1;
      TaskAppends(rounds[..n]);
      RunAppend(FRESH, TaskOps(rounds[..n]), RoundOps(n % FLUSH_PERIOD, rounds[n]));
      RoundAppends(Run(FRESH, TaskOps(rounds[..n])), n % FLUSH_PERIOD, rounds[n]);
    }
  }

  /** Over any number of rounds with working temporary files, every alert the handler accepted is either
      published or pending, none is published more often than it was raised, and the pending ones
      keep the order in which they were raised. */
  lemma TaskConservesAlerts(rounds: seq<Round>)
    requires forall k :: 0 <= k < |TaskOps(rounds)| && TaskOps(rounds)[k].Flush? ==> TaskOps(rounds)[k].env.tmpOpens
    ensures var q := Run(FRESH, TaskOps(rounds));
            && multiset(AllStored(rounds)) == multiset(q.published) + multiset(Pending(q.files))
            && multiset(q.published) <= multiset(AllStored(rounds))
            && Subsequence(Pending(q.files), AllStored(rounds))
  {
    TaskAppends(rounds);
    TaskOpsAreStorable(rounds);
    AlertsAreConserved(TaskOps(rounds));
  }

  lemma Regroup(appended: seq<string>, r: Round)
    ensures appended + Stored(r) == appended
            + (if r.door.Alert? && r.doorEnabled && r.containerId != "" && r.door.fired.built && r.door.fired.opens
               then [AlertLine(r.containerId, DoorOpen, r.door.fired.timestamp)] else [])
            + (if r.collision.Alert? && r.containerId != "" && r.collision.fired.built && r.collision.fired.opens
               then [AlertLine(r.containerId, Collision, r.collision.fired.timestamp)] else [])
  {
    hide AlertLine;
  }

  lemma RunNothing(q: Queue)
    ensures Run(q, []) == q
  {
  }

  // ---------------------------------------------------------------- what one alert does

  /** An alert reaches the file before anything is published. Connected, it is published at once behind the
      backlog if every publish succeeds; not connected, it joins the backlog. */
  lemma AlertIsStoredThenSent(q: Queue, containerId: string, w: Warning, f: Fired)
    requires WellFormed(q.files) && f.built && f.opens
    requires f.connected ==> f.env.memory && forall k :: 0 <= k <= |Pending(q.files)| ==> f.env.Publishes(k)
    ensures var line := AlertLine(containerId, w, f.timestamp);
            var t := Run(q, AlertOps(containerId, w, f));
            && t.appended == q.appended + [line]
            && (f.connected ==> t.published == q.published + (Pending(q.files) + [line]) && Pending(t.files) == [])
            && (!f.connected ==> t.published == q.published && Pending(t.files) == Pending(q.files) + [line])
  {
    var line := AlertLine(containerId, w, f.timestamp);
    AlertLineIsStorable(containerId, w, f.timestamp);
    RaiseAppends(q.files, line);
    RunOne(q, Raise(line, true));
    var raised := Apply(q, Raise(line, true));
    AlertOpsAppend(q, containerId, w, f);
    if f.connected {
      RunTwo(q, Raise(line, true), Flush(f.env));
      FlushSendsAll(raised.files, f.env);
    } else {
      assert [Raise(line, true)] + [] == [Raise(line, true)];
    }
    hide AlertLine, Pending, Run, AfterFlush, FlushSent, Append;
  }

  lemma FlushSendsAll(files: Files, env: FlushEnv)
    requires WellFormed(files) && env.memory && forall k :: 0 <= k < |Pending(files)| ==> env.Publishes(k)
    ensures FlushSent(files, env) == Pending(files) && Pending(AfterFlush(files, env)) == []
  {
    AllSent(Pending(files), env);
    FlushKeepsFailed(files, env);
    JoinIsEmptyIffNoLines(Pending(files));
    hide Kept, Sent, AfterFlush;
  }

  /** A round without alerts touches the queue only if it is the sixtieth, connected, and configured: then it
      flushes once. */
  lemma QuietRoundFlushesIff(counter: nat, r: Round)
    requires r.door.Quiet? && r.collision.Quiet?
    ensures RoundOps(counter, r) == if counter >= 59 && r.connected && r.containerId != "" then [Flush(r.env)] else []
  {
  }

  /** The payload: an object with the time of the alert. */
  function PayloadText(timestamp: string): string {
    "{" + JsonText.Named("timestamp", "\"" + timestamp + "\"") + "}"
  }

  /** The same with its quotes escaped. */
  function QuotedPayload(timestamp: string): string {
    "{" + ("\\\"" + "timestamp" + "\\\":" + ("\\\"" + timestamp + "\\\"")) + "}"
  }

  lemma PayloadIsPrinted(timestamp: string)
    requires JsonText.Plain(timestamp)
    ensures JsonText.Print(JsonText.Object([JsonText.Member("timestamp", JsonText.Text(timestamp))]))
            == PayloadText(timestamp)
  {
    var m := JsonText.Member("timestamp", JsonText.Text(timestamp));
    JsonText.EscapeOfPlain(timestamp);
    assert JsonText.Print(m.value) == "\"" + timestamp + "\"";
    JsonText.MemberText("timestamp", m.value);
    assert JsonText.PrintMembers([m]) == JsonText.PrintMember(m);
    assert JsonText.Print(JsonText.Object([m])) == "{" + JsonText.PrintMembers([m]) + "}";
    hide *;
    assert PayloadText(timestamp) == "{" + JsonText.Named("timestamp", "\"" + timestamp + "\"") + "}" by {
      PayloadMeans(timestamp);
    }
  }

  lemma PayloadMeans(timestamp: string)
    ensures PayloadText(timestamp) == "{" + JsonText.Named("timestamp", "\"" + timestamp + "\"") + "}"
    ensures JsonText.Named("timestamp", "\"" + timestamp + "\"") ==
            "\"" + "timestamp" + "\":" + ("\"" + timestamp + "\"")
  {
  }

  lemma EscapedMarks()
    ensures JsonText.Escape("{") == "{" && JsonText.Escape("}") == "}" && JsonText.Escape("\"") == "\\\""
    ensures JsonText.Escape(":") == ":"
  {
    JsonText.EscapeOne('{');
    JsonText.EscapeOne('}');
    JsonText.EscapeOne(':');
    JsonText.EscapeOne('\"');
    hide JsonText.Escape;
  }

  lemma EscapedColon()
    ensures JsonText.Escape("\":") == "\\\":"
  {
    EscapedMarks();
    hide *;
    JsonText.EscapeAppend("\"", ":");
    assert "\":" == "\"" + ":";
  }

  lemma EscapedKey()
    ensures JsonText.Escape("timestamp") == "timestamp"
  {
    JsonText.EscapeOfPlain("timestamp");
  }

  lemma QuotesAreEscaped(timestamp: string)
    requires JsonText.Plain(timestamp)
    ensures JsonText.Escape(PayloadText(timestamp)) == QuotedPayload(timestamp)
  {
    var q := "\"";
    var key, value := q + "timestamp" + "\":", q + timestamp + q;
    JsonText.EscapeOfPlain(timestamp);
    EscapedMarks();
    EscapedColon();
    EscapedKey();
    PayloadMeans(timestamp);
    assert QuotedPayload(timestamp) == "{" + ("\\\"" + "timestamp" + "\\\":" + ("\\\"" + timestamp + "\\\"")) + "}";
    hide *;
    JsonText.EscapeAppend("{" + (key + value), "}");
    JsonText.EscapeAppend("{", key + value);
    JsonText.EscapeAppend(key, value);
    JsonText.EscapeAppend(q + "timestamp", "\":");
    JsonText.EscapeAppend(q, "timestamp");
    JsonText.EscapeAppend(q + timestamp, q);
    JsonText.EscapeAppend(q, timestamp);
  }

  function TopicText(containerId: string, w: Warning): string {
    "device/" + containerId + "/warning/" + if w.DoorOpen? then "doorOpen" else "collision"
  }

  lemma TopicIsPlain(containerId: string, w: Warning)
    requires JsonText.Plain(containerId) && |containerId| < 32
    ensures Truncate("device/" + containerId + "/warning/" + WarningName(w), TOPIC_MAX) == TopicText(containerId, w)
    ensures JsonText.Plain(TopicText(containerId, w))
  {
    assert JsonText.Plain("device/") && JsonText.Plain("/warning/");
    assert JsonText.Plain("doorOpen") && JsonText.Plain("collision");
    hide JsonText.PlainChar;
  }

  /** The stored line: the topic names the container and the warning, and the payload is the time, as JSON text
      inside JSON. */
  lemma AlertLineText(containerId: string, w: Warning, timestamp: string)
    requires JsonText.Plain(containerId) && JsonText.Plain(timestamp) && |containerId| < 32
    ensures AlertLine(containerId, w, timestamp) ==
            "{" + JsonText.Commas([JsonText.Named("topic", "\"" + TopicText(containerId, w) + "\""),
                                   JsonText.Named("payload", "\"" + QuotedPayload(timestamp) + "\"")]) + "}"
  {
    var topic := TopicText(containerId, w);
    var ms := [JsonText.Member("topic", JsonText.Text(topic)),
               JsonText.Member("payload", JsonText.Text(PayloadText(timestamp)))];
    PayloadIsPrinted(timestamp);
    QuotesAreEscaped(timestamp);
    TopicIsPlain(containerId, w);
    assert AlertLine(containerId, w, timestamp) == JsonText.Print(JsonText.Object(ms));
    assert JsonText.Plain("topic") && JsonText.Plain("payload");
    hide AlertLine, PayloadText, QuotedPayload, TopicText, JsonText.Plain, JsonText.Escape;
    TwoTexts(ms, topic, PayloadText(timestamp));
    JsonText.EscapeOfPlain(topic);
  }

  lemma TwoTexts(ms: seq<JsonText.Member>, topic: string, payload: string)
    requires ms == [JsonText.Member("topic", JsonText.Text(topic)), JsonText.Member("payload", JsonText.Text(payload))]
    requires JsonText.Plain("topic") && JsonText.Plain("payload")
    ensures JsonText.Print(JsonText.Object(ms)) ==
            "{" + JsonText.Commas([JsonText.Named("topic", "\"" + JsonText.Escape(topic) + "\""),
                                   JsonText.Named("payload", "\"" + JsonText.Escape(payload) + "\"")]) + "}"
  {
    assert JsonText.Print(JsonText.Object(ms)) == "{" + JsonText.PrintMembers(ms) + "}";
    assert JsonText.Print(ms[0].value) == "\"" + JsonText.Escape(topic) + "\"";
    assert JsonText.Print(ms[1].value) == "\"" + JsonText.Escape(payload) + "\"";
    JsonText.MemberText("topic", ms[0].value);
    JsonText.MemberText("payload", ms[1].value);
    hide *;
    JsonText.MembersAreCommas(ms, [JsonText.Named("topic", "\"" + JsonText.Escape(topic) + "\""),
                                   JsonText.Named("payload", "\"" + JsonText.Escape(payload) + "\"")]);
  }
}
