/** The tunnel under every interleaving of its callers, its peerings and their control
    streams (apps/tunnel/socks.go, peering.go, server.go, main.go). */
module Tunnel {
  import opened Engine
  import opened PendingDials

  // --- State -------------------------------------------------------------------

  /** A peering's session: its device is up, it is registered, it has left the registry, or
      its device is closed. */
  datatype Stage = Up | Registered | Leaving | Closed

  /** An answer, and the command of the log it came from. */
  datatype Letter = Letter(verdict: Verdict, command: nat)

  /** An answer taken off the table and not yet on its channel. */
  datatype Sending = Sending(conn: nat, letter: Letter)

  datatype Peering = Peering(stage: Stage, entry: Entry, table: Table<nat>, sending: Option<Sending>)

  /** A SOCKS5 connection, from its greeting to its end. */
  datatype Phase = Greeting | Ready | Opened | Waiting | Closing | Judged | Done

  datatype Outcome = Undecided | Allowed(address: Address, command: nat) | Refused | GaveUp

  /** Where a connection was let in, and where its id was issued: the peering, the id, and
      the moments in the log. */
  datatype Admission = Admission(peering: nat, at: nat)
  datatype Question = Question(id: string, at: nat)

  /** `taken` and `answers` are history: whether the connection's channel has been taken off
      the table, and how many answers were sent into it. */
  datatype Conn = Conn(
    phase: Phase,
    admission: Option<Admission>,
    question: Option<Question>,
    inbox: Option<Letter>,
    outcome: Outcome,
    taken: bool,
    answers: nat)

  /** What has happened. */
  datatype Event =
    | Admitted(conn: nat, peering: nat, username: string, password: string)
    | Issued(conn: nat, peering: nat, id: string)
    | Command(peering: nat, instruction: Instruction, taker: Option<nat>)
    | Abandoned(conn: nat)
    | Dialled(conn: nat, peering: nat, address: Address)

  datatype State = State(peerings: seq<Peering>, registry: Peerings, conns: seq<Conn>, log: seq<Event>)

  const START := State([], map[], [], [])

  const GREETING := Conn(Greeting, None, None, None, Undecided, false, 0)

  // --- Steps -------------------------------------------------------------------

  datatype Action =
    | BringUp
    | Register(peering: nat, username: string, password: string)
    | Unregister(peering: nat)
    | CloseDevice(peering: nat)
    | Accept
    | Authenticate(conn: nat, username: string, password: string)
    | Open(conn: nat)
    | Ask(conn: nat, sent: bool)
    | Receive(conn: nat)
    | GiveUp(conn: nat)
    | CloseWait(conn: nat)
    | Dial(conn: nat)
    | Drop(conn: nat)
    | Take(peering: nat, instruction: Instruction)
    | Send(peering: nat)

  predicate IsPeering(s: State, p: nat) {
    p < |s.peerings|
  }

  predicate InPhase(s: State, c: nat, phase: Phase) {
    c < |s.conns| && s.conns[c].phase == phase
  }

  /** The peering a connection was let into. */
  predicate Inside(s: State, c: nat) {
    c < |s.conns| && s.conns[c].admission.Some? && s.conns[c].admission.value.peering < |s.peerings|
  }

  function PeeringOf(s: State, c: nat): nat
    requires Inside(s, c)
  {
    s.conns[c].admission.value.peering
  }

  /** Whether a step can be taken now. A send waits for room in the channel. */
  predicate Enabled(s: State, a: Action) {
    match a
    case BringUp => true
    case Register(p, _, _) => IsPeering(s, p) && s.peerings[p].stage == Up
    case Unregister(p) => IsPeering(s, p) && s.peerings[p].stage == Registered
    case CloseDevice(p) => IsPeering(s, p) && s.peerings[p].stage == Leaving
    case Accept => true
    case Authenticate(c, _, _) => InPhase(s, c, Greeting)
    case Open(c) => InPhase(s, c, Ready) && Inside(s, c)
    case Ask(c, _) => InPhase(s, c, Opened)
    case Receive(c) => InPhase(s, c, Waiting) && s.conns[c].inbox.Some?
    case GiveUp(c) => InPhase(s, c, Waiting)
    case CloseWait(c) => InPhase(s, c, Closing) && Inside(s, c) && s.conns[c].question.Some?
    case Dial(c) => InPhase(s, c, Judged) && Inside(s, c) && s.conns[c].outcome.Allowed?
    case Drop(c) => InPhase(s, c, Greeting) || InPhase(s, c, Ready) || InPhase(s, c, Judged)
    case Take(p, _) => IsPeering(s, p) && s.peerings[p].sending.None?
    case Send(p) => CanSend(s, p)
  }

  predicate CanSend(s: State, p: nat) {
    && IsPeering(s, p) && s.peerings[p].sending.Some?
    && s.peerings[p].sending.value.conn < |s.conns|
    && s.conns[s.peerings[p].sending.value.conn].inbox.None?
  }

  function SetConn(s: State, c: nat, conn: Conn): State
    requires c < |s.conns|
  {
    s.(conns := s.conns[c := conn])
  }

  function SetPeering(s: State, p: nat, peering: Peering): State
    requires p < |s.peerings|
  {
    s.(peerings := s.peerings[p := peering])
  }

  function Log(s: State, e: Event): State {
    s.(log := s.log + [e])
  }

  /** What the waiter does with an answer: an empty refusal allows. */
  function OutcomeOf(letter: Letter): Outcome {
    if letter.verdict.refusal != "" then Refused else Allowed(letter.verdict.address, letter.command)
  }

  function DoRegister(s: State, p: nat, username: string, password: string): State
    requires IsPeering(s, p)
  {
    var entry := Entry(p, username, password);
    var added := AddTo(s.registry, entry);
    if added.None? then SetPeering(s, p, s.peerings[p].(stage := Leaving))
    else SetPeering(s, p, s.peerings[p].(stage := Registered, entry := entry)).(registry := added.value)
  }

  function DoAuthenticate(s: State, c: nat, username: string, password: string): State
    requires c < |s.conns|
  {
    var entry := AuthenticateIn(s.registry, username, password);
    if entry.None? then SetConn(s, c, s.conns[c].(phase := Done))
    else
      var p := entry.value.peering;
      var conn := s.conns[c].(phase := Ready, admission := Some(Admission(p, |s.log|)));
      Log(SetConn(s, c, conn), Admitted(c, p, username, password))
  }

  function DoOpen(s: State, c: nat): State
    requires Inside(s, c)
  {
    var p := PeeringOf(s, c);
    var table := s.peerings[p].table;
    var conn := s.conns[c].(phase := Opened, question := Some(Question(NextId(table), |s.log|)));
    Log(SetConn(SetPeering(s, p, s.peerings[p].(table := OpenIn(table, c))), c, conn), Issued(c, p, NextId(table)))
  }

  function DoCloseWait(s: State, c: nat): State
    requires Inside(s, c) && s.conns[c].question.Some?
  {
    var p := PeeringOf(s, c);
    var peering := s.peerings[p].(table := CloseIn(s.peerings[p].table, s.conns[c].question.value.id));
    SetConn(SetPeering(s, p, peering), c, s.conns[c].(phase := Judged))
  }

  /** The state once a waiter is taken off a table. */
  function TakenOff(s: State, p: nat, id: string, c: nat): State
    requires p < |s.peerings| && c < |s.conns|
  {
    SetConn(SetPeering(s, p, s.peerings[p].(table := CloseIn(s.peerings[p].table, id))), c, s.conns[c].(taken := true))
  }

  function Owing(s: State, p: nat, sending: Sending): State
    requires p < |s.peerings|
  {
    SetPeering(s, p, s.peerings[p].(sending := Some(sending)))
  }

  /** The half of a delivery done under the lock: look up and delete. */
  function DoTake(s: State, p: nat, instruction: Instruction): State
    requires IsPeering(s, p)
  {
    var waiter: Option<nat> := Waiter<nat>(s.peerings[p].table, instruction.id);
    var logged := Log(s, Command(p, instruction, waiter));
    if waiter.None? || waiter.value >= |s.conns| then logged
    else
      var sending := Sending(waiter.value, Letter(VerdictOf(instruction), |s.log|));
      Owing(TakenOff(logged, p, instruction.id, waiter.value), p, sending)
  }

  function Idle(s: State, p: nat): State
    requires p < |s.peerings|
  {
    SetPeering(s, p, s.peerings[p].(sending := None))
  }

  function Answer(s: State, c: nat, letter: Letter): State
    requires c < |s.conns|
  {
    SetConn(s, c, s.conns[c].(inbox := Some(letter), answers := s.conns[c].answers + 1))
  }

  /** The other half: the send. */
  function DoSend(s: State, p: nat): State
    requires CanSend(s, p)
  {
    Answer(Idle(s, p), s.peerings[p].sending.value.conn, s.peerings[p].sending.value.letter)
  }

  /** One step; a step that cannot be taken leaves everything as it is. */
  function Do(s: State, a: Action): State {
    if !Enabled(s, a) then s
    else match a
      case BringUp => s.(peerings := s.peerings + [Peering(Up, Entry(|s.peerings|, "", ""), EmptyTable(), None)])
      case Register(p, username, password) => DoRegister(s, p, username, password)
      case Unregister(p) =>
        SetPeering(s, p, s.peerings[p].(stage := Leaving)).(registry := RemoveFrom(s.registry, s.peerings[p].entry))
      case CloseDevice(p) => SetPeering(s, p, s.peerings[p].(stage := Closed))
      case Accept => s.(conns := s.conns + [GREETING])
      case Authenticate(c, username, password) => DoAuthenticate(s, c, username, password)
      case Open(c) => DoOpen(s, c)
      case Ask(c, sent) =>
        if sent then SetConn(s, c, s.conns[c].(phase := Waiting))
        else Log(SetConn(s, c, s.conns[c].(phase := Closing, outcome := GaveUp)), Abandoned(c))
      case Receive(c) =>
        SetConn(s, c, s.conns[c].(phase := Closing, inbox := None, outcome := OutcomeOf(s.conns[c].inbox.value)))
      case GiveUp(c) => Log(SetConn(s, c, s.conns[c].(phase := Closing, outcome := GaveUp)), Abandoned(c))
      case CloseWait(c) => DoCloseWait(s, c)
      case Dial(c) =>
        Log(SetConn(s, c, s.conns[c].(phase := Done)), Dialled(c, PeeringOf(s, c), s.conns[c].outcome.address))
      case Drop(c) => SetConn(s, c, s.conns[c].(phase := Done))
      case Take(p, instruction) => DoTake(s, p, instruction)
      case Send(p) => DoSend(s, p)
  }

  /** Every run: any steps, in any order. */
  function Run(actions: seq<Action>): State {
    if actions == [] then START else Do(Run(actions[..|actions| - 1]), actions[|actions| - 1])
  }

  // --- What every step keeps ---------------------------------------------------

  predicate EntryOk(s: State, e: Entry) {
    e.peering < |s.peerings| && s.peerings[e.peering].stage == Registered && s.peerings[e.peering].entry == e
  }

  /** Whoever can be authenticated into is registered, under its own name. */
  predicate RegistryOk(s: State) {
    KeyedByName(s.registry) && forall name :: name in s.registry ==> EntryOk(s, s.registry[name])
  }

  predicate AdmissionOk(s: State, c: nat, a: Admission) {
    && a.peering < |s.peerings| && !s.peerings[a.peering].stage.Up?
    && a.at < |s.log|
    && s.log[a.at] == Admitted(c, a.peering, s.peerings[a.peering].entry.username, s.peerings[a.peering].entry.password)
  }

  predicate QuestionOk(s: State, c: nat, a: Admission, q: Question) {
    a.at < q.at < |s.log| && s.log[q.at] == Issued(c, a.peering, q.id)
  }

  /** The answer came from a command of this connection's own peering, for its own id, after
      the id was issued. */
  predicate LetterOk(s: State, c: nat, a: Admission, q: Question, letter: Letter) {
    && q.at < letter.command < |s.log|
    && s.log[letter.command].Command?
    && s.log[letter.command].peering == a.peering
    && s.log[letter.command].taker == Some(c)
    && s.log[letter.command].instruction.id == q.id
    && VerdictOf(s.log[letter.command].instruction) == letter.verdict
  }

  predicate Answered(s: State, c: nat, conn: Conn, letter: Letter) {
    conn.question.Some? && conn.admission.Some? && LetterOk(s, c, conn.admission.value, conn.question.value, letter)
  }

  /** A connection's record is borne out by the log. */
  predicate Documented(s: State, c: nat, conn: Conn) {
    && (conn.admission.Some? ==> AdmissionOk(s, c, conn.admission.value))
    && (conn.question.Some? ==> conn.admission.Some? && QuestionOk(s, c, conn.admission.value, conn.question.value))
    && (conn.inbox.Some? ==> Answered(s, c, conn, conn.inbox.value))
    && (conn.outcome.Allowed? ==> Answered(s, c, conn, Letter(Verdict(conn.outcome.address, ""), conn.outcome.command)))
  }

  /** A connection's fields fit its phase. */
  predicate Phased(conn: Conn) {
    && (conn.phase.Greeting? ==> conn.admission.None?)
    && (conn.phase.Greeting? || conn.phase.Ready? ==> conn.question.None?)
    && (conn.phase.Ready? ==> conn.admission.Some?)
    && (conn.phase.Opened? || conn.phase.Waiting? || conn.phase.Closing? || conn.phase.Judged? ==> conn.question.Some?)
    && (conn.phase.Greeting? || conn.phase.Ready? ==> conn.outcome.Undecided?)
    && (conn.phase.Opened? || conn.phase.Waiting? ==> conn.outcome.Undecided?)
    && (conn.question.None? ==> !conn.taken)
    && (conn.inbox.Some? ==> conn.answers == 1)
    && conn.answers <= 1 && (conn.answers == 1 ==> conn.taken)
  }

  predicate ConnsOk(s: State) {
    forall c {:trigger s.conns[c]} :: 0 <= c < |s.conns| ==> Phased(s.conns[c]) && Documented(s, c, s.conns[c])
  }

  predicate Asked(conn: Conn, p: nat, id: string) {
    && conn.admission.Some? && conn.admission.value.peering == p
    && conn.question.Some? && conn.question.value.id == id
    && !conn.taken
  }

  /** Whoever waits opened that id there, and has not been answered. */
  predicate TableOk(s: State, p: nat, table: Table<nat>) {
    forall id :: id in table.waiting ==> table.waiting[id] < |s.conns| && Asked(s.conns[table.waiting[id]], p, id)
  }

  predicate SendingOk(s: State, p: nat, sending: Sending) {
    sending.conn < |s.conns| && Owed(s, p, sending.conn, s.conns[sending.conn], sending.letter)
  }

  predicate Owed(s: State, p: nat, c: nat, conn: Conn, letter: Letter) {
    && conn.admission.Some? && conn.admission.value.peering == p
    && conn.question.Some?
    && conn.taken && conn.answers == 0
    && LetterOk(s, c, conn.admission.value, conn.question.value, letter)
  }

  predicate PeeringOk(s: State, p: nat, peering: Peering) {
    TableOk(s, p, peering.table) && (peering.sending.Some? ==> SendingOk(s, p, peering.sending.value))
  }

  predicate PeeringsOk(s: State) {
    forall p {:trigger s.peerings[p]} :: 0 <= p < |s.peerings| ==> PeeringOk(s, p, s.peerings[p])
  }

  predicate EventOk(s: State, k: nat, e: Event) {
    && (e.Abandoned? ==> e.conn < |s.conns| && s.conns[e.conn].outcome == GaveUp)
    && (e.Dialled? ==> e.conn < |s.conns| && DialOk(s.conns[e.conn], k, e))
  }

  predicate DialOk(conn: Conn, k: nat, e: Event)
    requires e.Dialled?
  {
    && conn.phase == Done
    && conn.admission.Some? && conn.admission.value.peering == e.peering
    && conn.outcome.Allowed? && conn.outcome.address == e.address && conn.outcome.command < k
  }

  predicate LogOk(s: State) {
    && (forall k {:trigger s.log[k]} :: 0 <= k < |s.log| ==> EventOk(s, k, s.log[k]))
    && (forall i, j :: 0 <= i < j < |s.log| && s.log[i].Dialled? && s.log[j].Dialled? ==>
          s.log[i].conn != s.log[j].conn)
  }

  predicate Inv(s: State) {
    RegistryOk(s) && ConnsOk(s) && PeeringsOk(s) && LogOk(s)
  }

  // One thing changed at a time: a connection, a peering, the log.

  lemma {:induction false} SetConnKeeps(s: State, c: nat, conn: Conn)
    requires Inv(s) && c < |s.conns| && Phased(conn) && Documented(s, c, conn)
    requires PeeringsOk(SetConn(s, c, conn))
    requires !s.conns[c].outcome.Undecided? ==> conn.outcome == s.conns[c].outcome
    requires s.conns[c].phase == Done ==> conn.phase == Done && conn.admission == s.conns[c].admission
    ensures Inv(SetConn(s, c, conn))
  {
    var t := SetConn(s, c, conn);
    forall d | 0 <= d < |t.conns| ensures Phased(t.conns[d]) && Documented(t, d, t.conns[d]) {
      assert d != c ==> t.conns[d] == s.conns[d];
    }
    forall k | 0 <= k < |t.log| ensures EventOk(t, k, t.log[k]) {
      assert EventOk(s, k, s.log[k]);
    }
  }

  /** A connection that moves on without being answered disturbs no peering. */
  lemma {:induction false} MovingOn(s: State, c: nat, conn: Conn)
    requires Inv(s) && c < |s.conns|
    requires s.conns[c].question.Some? ==>
      conn.admission == s.conns[c].admission && conn.question == s.conns[c].question
    requires conn.taken == s.conns[c].taken && conn.answers == s.conns[c].answers
    ensures PeeringsOk(SetConn(s, c, conn))
  {
    var t := SetConn(s, c, conn);
    forall p | 0 <= p < |t.peerings| ensures PeeringOk(t, p, t.peerings[p]) {
      assert PeeringOk(s, p, s.peerings[p]);
      forall id | id in t.peerings[p].table.waiting
        ensures t.peerings[p].table.waiting[id] < |t.conns| && Asked(t.conns[t.peerings[p].table.waiting[id]], p, id)
      {
        assert Asked(s.conns[s.peerings[p].table.waiting[id]], p, id);
      }
    }
  }

  lemma {:induction false} MoveConn(s: State, c: nat, conn: Conn)
    requires Inv(s) && c < |s.conns| && Phased(conn) && Documented(s, c, conn)
    requires s.conns[c].question.Some? ==>
      conn.admission == s.conns[c].admission && conn.question == s.conns[c].question
    requires conn.taken == s.conns[c].taken && conn.answers == s.conns[c].answers
    requires !s.conns[c].outcome.Undecided? ==> conn.outcome == s.conns[c].outcome
    requires s.conns[c].phase != Done
    ensures Inv(SetConn(s, c, conn))
  {
    MovingOn(s, c, conn);
    SetConnKeeps(s, c, conn);
  }

  lemma {:induction false} SetPeeringKeeps(s: State, p: nat, peering: Peering)
    requires Inv(s) && p < |s.peerings| && PeeringOk(s, p, peering)
    requires peering.stage == s.peerings[p].stage && peering.entry == s.peerings[p].entry
    ensures Inv(SetPeering(s, p, peering))
  {
    var t := SetPeering(s, p, peering);
    forall q | 0 <= q < |t.peerings| ensures PeeringOk(t, q, t.peerings[q]) {
      assert PeeringOk(s, q, t.peerings[q]);
    }
    forall c | 0 <= c < |t.conns| ensures Phased(t.conns[c]) && Documented(t, c, t.conns[c]) {
      assert Documented(s, c, s.conns[c]);
    }
    forall k | 0 <= k < |t.log| ensures EventOk(t, k, t.log[k]) {
      assert EventOk(s, k, s.log[k]);
    }
  }

  predicate NewDial(s: State, e: Event) {
    e.Dialled? ==> forall k :: 0 <= k < |s.log| && s.log[k].Dialled? ==> s.log[k].conn != e.conn
  }

  lemma {:induction false} LogKeeps(s: State, e: Event)
    requires Inv(s) && EventOk(s, |s.log|, e) && NewDial(s, e)
    ensures Inv(Log(s, e))
  {
    var t := Log(s, e);
    forall c | 0 <= c < |t.conns| ensures Phased(t.conns[c]) && Documented(t, c, t.conns[c]) {
      assert Documented(s, c, s.conns[c]);
    }
    forall p | 0 <= p < |t.peerings| ensures PeeringOk(t, p, t.peerings[p]) {
      assert PeeringOk(s, p, s.peerings[p]);
    }
    forall k | 0 <= k < |t.log| ensures EventOk(t, k, t.log[k]) {
      assert k < |s.log| ==> EventOk(s, k, s.log[k]);
    }
  }

  /** A peering's stage moves on, and who may be authenticated into with it. */
  lemma {:induction false} StageKeeps(s: State, p: nat, peering: Peering, registry: Peerings)
    requires Inv(s) && p < |s.peerings|
    requires peering.table == s.peerings[p].table && peering.sending == s.peerings[p].sending
    requires !peering.stage.Up? && (!s.peerings[p].stage.Up? ==> peering.entry == s.peerings[p].entry)
    requires RegistryOk(SetPeering(s, p, peering).(registry := registry))
    ensures Inv(SetPeering(s, p, peering).(registry := registry))
  {
    var t := SetPeering(s, p, peering).(registry := registry);
    forall q | 0 <= q < |t.peerings| ensures PeeringOk(t, q, t.peerings[q]) {
      assert PeeringOk(s, q, s.peerings[q]);
    }
    forall c | 0 <= c < |t.conns| ensures Phased(t.conns[c]) && Documented(t, c, t.conns[c]) {
      assert Documented(s, c, s.conns[c]);
    }
    forall k | 0 <= k < |t.log| ensures EventOk(t, k, t.log[k]) {
      assert EventOk(s, k, s.log[k]);
    }
  }

  // The steps.

  lemma {:induction false} KeepsBringUp(s: State)
    requires Inv(s)
    ensures Inv(Do(s, BringUp))
  {
  }

  lemma {:induction false} KeepsRegister(s: State, p: nat, username: string, password: string)
    requires Inv(s) && Enabled(s, Register(p, username, password))
    ensures Inv(DoRegister(s, p, username, password))
  {
    var entry := Entry(p, username, password);
    var added := AddTo(s.registry, entry);
    forall name | name in s.registry ensures EntryOk(s, s.registry[name]) && s.registry[name].peering != p {
    }
    if added.None? {
      StageKeeps(s, p, s.peerings[p].(stage := Leaving), s.registry);
    } else {
      StageKeeps(s, p, s.peerings[p].(stage := Registered, entry := entry), added.value);
    }
  }

  lemma {:induction false} KeepsUnregister(s: State, p: nat)
    requires Inv(s) && Enabled(s, Unregister(p))
    ensures Inv(Do(s, Unregister(p)))
  {
    var registry := RemoveFrom(s.registry, s.peerings[p].entry);
    forall name | name in registry ensures EntryOk(s, registry[name]) && registry[name].peering != p {
      assert s.registry[name] == registry[name];
    }
    StageKeeps(s, p, s.peerings[p].(stage := Leaving), registry);
  }

  lemma {:induction false} KeepsCloseDevice(s: State, p: nat)
    requires Inv(s) && Enabled(s, CloseDevice(p))
    ensures Inv(Do(s, CloseDevice(p)))
  {
    StageKeeps(s, p, s.peerings[p].(stage := Closed), s.registry);
  }

  lemma {:induction false} KeepsAccept(s: State)
    requires Inv(s)
    ensures Inv(Do(s, Accept))
  {
  }

  lemma {:induction false} KeepsAuthenticate(s: State, c: nat, username: string, password: string)
    requires Inv(s) && InPhase(s, c, Greeting)
    ensures Inv(DoAuthenticate(s, c, username, password))
  {
    var entry := AuthenticateIn(s.registry, username, password);
    if entry.None? {
      MoveConn(s, c, s.conns[c].(phase := Done));
    } else {
      assert EntryOk(s, entry.value);
      var p := entry.value.peering;
      var t := Log(s, Admitted(c, p, username, password));
      LogKeeps(s, Admitted(c, p, username, password));
      MoveConn(t, c, s.conns[c].(phase := Ready, admission := Some(Admission(p, |s.log|))));
    }
  }

  lemma {:induction false} KeepsOpen(s: State, c: nat)
    requires Inv(s) && Enabled(s, Open(c))
    ensures Inv(DoOpen(s, c))
  {
    var p := PeeringOf(s, c);
    var table := s.peerings[p].table;
    var id := NextId(table);
    var t := Log(s, Issued(c, p, id));
    LogKeeps(s, Issued(c, p, id));
    var conn := s.conns[c].(phase := Opened, question := Some(Question(id, |s.log|)));
    MoveConn(t, c, conn);
    var u := SetConn(t, c, conn);
    assert PeeringOk(u, p, u.peerings[p]);
    var peering := s.peerings[p].(table := OpenIn(table, c));
    assert TableOk(u, p, peering.table);
    SetPeeringKeeps(u, p, peering);
  }

  lemma {:induction false} KeepsAbandon(s: State, c: nat)
    requires Inv(s) && (InPhase(s, c, Opened) || InPhase(s, c, Waiting))
    ensures Inv(Log(SetConn(s, c, s.conns[c].(phase := Closing, outcome := GaveUp)), Abandoned(c)))
  {
    var conn := s.conns[c].(phase := Closing, outcome := GaveUp);
    MoveConn(s, c, conn);
    LogKeeps(SetConn(s, c, conn), Abandoned(c));
  }

  lemma {:induction false} KeepsReceive(s: State, c: nat)
    requires Inv(s) && Enabled(s, Receive(c))
    ensures Inv(Do(s, Receive(c)))
  {
    var letter := s.conns[c].inbox.value;
    assert Answered(s, c, s.conns[c], letter);
    assert letter.verdict.refusal == "" ==> letter == Letter(Verdict(letter.verdict.address, ""), letter.command);
    MoveConn(s, c, s.conns[c].(phase := Closing, inbox := None, outcome := OutcomeOf(letter)));
  }

  lemma {:induction false} KeepsCloseWait(s: State, c: nat)
    requires Inv(s) && Enabled(s, CloseWait(c))
    ensures Inv(DoCloseWait(s, c))
  {
    var p := PeeringOf(s, c);
    var peering := s.peerings[p].(table := CloseIn(s.peerings[p].table, s.conns[c].question.value.id));
    assert PeeringOk(s, p, s.peerings[p]);
    SetPeeringKeeps(s, p, peering);
    MoveConn(SetPeering(s, p, peering), c, s.conns[c].(phase := Judged));
  }

  lemma {:induction false} KeepsDial(s: State, c: nat)
    requires Inv(s) && Enabled(s, Dial(c))
    ensures Inv(Do(s, Dial(c)))
  {
    var conn := s.conns[c].(phase := Done);
    var e := Dialled(c, PeeringOf(s, c), conn.outcome.address);
    assert NewDial(s, e) by {
      forall k | 0 <= k < |s.log| && s.log[k].Dialled? ensures s.log[k].conn != c {
        assert EventOk(s, k, s.log[k]);
      }
    }
    assert Answered(s, c, s.conns[c], Letter(Verdict(conn.outcome.address, ""), conn.outcome.command));
    MoveConn(s, c, conn);
    LogKeeps(SetConn(s, c, conn), e);
  }

  /** Once its id is off the table, nobody owes a connection an answer. */
  lemma {:induction false} TakingOff(s: State, p: nat, id: string, c: nat)
    requires Inv(s) && p < |s.peerings| && c < |s.conns|
    requires Asked(s.conns[c], p, id) && id !in s.peerings[p].table.waiting
    ensures PeeringsOk(SetConn(s, c, s.conns[c].(taken := true)))
  {
    var t := SetConn(s, c, s.conns[c].(taken := true));
    forall q | 0 <= q < |t.peerings| ensures PeeringOk(t, q, t.peerings[q]) {
      assert PeeringOk(s, q, s.peerings[q]);
      forall i | i in t.peerings[q].table.waiting
        ensures t.peerings[q].table.waiting[i] < |t.conns| && Asked(t.conns[t.peerings[q].table.waiting[i]], q, i)
      {
        assert Asked(s.conns[s.peerings[q].table.waiting[i]], q, i);
      }
    }
  }

  lemma {:induction false} KeepsTakenOff(s: State, p: nat, id: string, c: nat)
    requires Inv(s) && p < |s.peerings| && c < |s.conns|
    requires Asked(s.conns[c], p, id)
    ensures Inv(TakenOff(s, p, id, c))
  {
    var off := s.peerings[p].(table := CloseIn(s.peerings[p].table, id));
    assert PeeringOk(s, p, s.peerings[p]);
    SetPeeringKeeps(s, p, off);
    var t := SetPeering(s, p, off);
    TakingOff(t, p, id, c);
    SetConnKeeps(t, c, t.conns[c].(taken := true));
  }

  lemma {:induction false} KeepsOwing(s: State, p: nat, sending: Sending)
    requires Inv(s) && p < |s.peerings| && SendingOk(s, p, sending)
    ensures Inv(Owing(s, p, sending))
  {
    assert PeeringOk(s, p, s.peerings[p]);
    SetPeeringKeeps(s, p, s.peerings[p].(sending := Some(sending)));
  }

  lemma {:induction false} WaiterAsked(s: State, p: nat, id: string)
    requires Inv(s) && p < |s.peerings| && id in s.peerings[p].table.waiting
    ensures
      var c := s.peerings[p].table.waiting[id];
      && c < |s.conns| && Asked(s.conns[c], p, id) && s.conns[c].answers == 0
      && QuestionOk(s, c, s.conns[c].admission.value, s.conns[c].question.value)
  {
    assert PeeringOk(s, p, s.peerings[p]);
    var c := s.peerings[p].table.waiting[id];
    assert Phased(s.conns[c]) && Documented(s, c, s.conns[c]);
  }

  lemma {:induction false} TakenIsOwed(s: State, p: nat, instruction: Instruction, c: nat)
    requires p < |s.peerings| && c < |s.conns| && Asked(s.conns[c], p, instruction.id) && s.conns[c].answers == 0
    requires QuestionOk(s, c, s.conns[c].admission.value, s.conns[c].question.value)
    ensures
      var t := TakenOff(Log(s, Command(p, instruction, Some(c))), p, instruction.id, c);
      SendingOk(t, p, Sending(c, Letter(VerdictOf(instruction), |s.log|)))
  {
  }

  lemma {:induction false} KeepsTake(s: State, p: nat, instruction: Instruction)
    requires Inv(s) && Enabled(s, Take(p, instruction))
    ensures Inv(DoTake(s, p, instruction))
  {
    var id := instruction.id;
    var waiter: Option<nat> := Waiter<nat>(s.peerings[p].table, id);
    LogKeeps(s, Command(p, instruction, waiter));
    if waiter.Some? {
      var c, t := waiter.value, Log(s, Command(p, instruction, waiter));
      WaiterAsked(s, p, id);
      KeepsTakenOff(t, p, id, c);
      TakenIsOwed(s, p, instruction, c);
      KeepsOwing(TakenOff(t, p, id, c), p, Sending(c, Letter(VerdictOf(instruction), |s.log|)));
    }
  }

  /** Once it is no longer being sent to, answering a connection disturbs nobody. */
  lemma {:induction false} Answering(s: State, p: nat, c: nat, letter: Letter)
    requires Inv(s) && p < |s.peerings| && c < |s.conns|
    requires Owed(s, p, c, s.conns[c], letter) && s.peerings[p].sending.None?
    ensures PeeringsOk(SetConn(s, c, s.conns[c].(inbox := Some(letter), answers := s.conns[c].answers + 1)))
  {
    var t := SetConn(s, c, s.conns[c].(inbox := Some(letter), answers := s.conns[c].answers + 1));
    forall q | 0 <= q < |t.peerings| ensures PeeringOk(t, q, t.peerings[q]) {
      assert PeeringOk(s, q, s.peerings[q]);
      forall i | i in t.peerings[q].table.waiting
        ensures t.peerings[q].table.waiting[i] < |t.conns| && Asked(t.conns[t.peerings[q].table.waiting[i]], q, i)
      {
        assert Asked(s.conns[s.peerings[q].table.waiting[i]], q, i);
      }
    }
  }

  lemma {:induction false} KeepsIdle(s: State, p: nat)
    requires Inv(s) && p < |s.peerings|
    ensures Inv(Idle(s, p))
  {
    assert PeeringOk(s, p, s.peerings[p]);
    SetPeeringKeeps(s, p, s.peerings[p].(sending := None));
  }

  lemma {:induction false} KeepsAnswer(s: State, p: nat, c: nat, letter: Letter)
    requires Inv(s) && p < |s.peerings| && c < |s.conns|
    requires Owed(s, p, c, s.conns[c], letter) && s.peerings[p].sending.None?
    ensures Inv(Answer(s, c, letter))
  {
    Answering(s, p, c, letter);
    SetConnKeeps(s, c, s.conns[c].(inbox := Some(letter), answers := s.conns[c].answers + 1));
  }

  lemma {:induction false} SendingIsOwed(s: State, p: nat)
    requires Inv(s) && p < |s.peerings| && s.peerings[p].sending.Some?
    ensures
      var sending, t := s.peerings[p].sending.value, Idle(s, p);
      && sending.conn < |s.conns| && s.conns[sending.conn].inbox.None?
      && Owed(t, p, sending.conn, t.conns[sending.conn], sending.letter)
  {
    assert PeeringOk(s, p, s.peerings[p]);
    assert Phased(s.conns[s.peerings[p].sending.value.conn]);
  }

  lemma {:induction false} KeepsSend(s: State, p: nat)
    requires Inv(s) && CanSend(s, p)
    ensures Inv(DoSend(s, p))
  {
    var sending := s.peerings[p].sending.value;
    SendingIsOwed(s, p);
    KeepsIdle(s, p);
    KeepsAnswer(Idle(s, p), p, sending.conn, sending.letter);
  }

  /** Every step keeps the invariant. */
  lemma {:induction false} StepKeeps(s: State, a: Action)
    requires Inv(s)
    ensures Inv(Do(s, a))
  {
    if Enabled(s, a) {
      match a
      case BringUp => KeepsBringUp(s);
      case Register(p, username, password) => KeepsRegister(s, p, username, password);
      case Unregister(p) => KeepsUnregister(s, p);
      case CloseDevice(p) => KeepsCloseDevice(s, p);
      case Accept => KeepsAccept(s);
      case Authenticate(c, username, password) => KeepsAuthenticate(s, c, username, password);
      case Open(c) => KeepsOpen(s, c);
      case Ask(c, sent) =>
        if sent {
          MoveConn(s, c, s.conns[c].(phase := Waiting));
        } else {
          KeepsAbandon(s, c);
        }
      case Receive(c) => KeepsReceive(s, c);
      case GiveUp(c) => KeepsAbandon(s, c);
      case CloseWait(c) => KeepsCloseWait(s, c);
      case Dial(c) => KeepsDial(s, c);
      case Drop(c) => MoveConn(s, c, s.conns[c].(phase := Done));
      case Take(p, instruction) => KeepsTake(s, p, instruction);
      case Send(p) => KeepsSend(s, p);
    }
  }

  lemma {:induction false} RunKeeps(actions: seq<Action>)
    ensures Inv(Run(actions))
  {
    if actions != [] {
      RunKeeps(actions[..|actions| - 1]);
      StepKeeps(Run(actions[..|actions| - 1]), actions[|actions| - 1]);
    }
  }

  // --- What holds of every run -------------------------------------------------

  /** An answer taken off the table can always be sent: the channel it goes to is empty, so
      the command loop that sends it never waits on a caller. */
  lemma {:induction false} SendNeverBlocks(actions: seq<Action>, p: nat)
    requires var s := Run(actions); p < |s.peerings| && s.peerings[p].sending.Some?
    ensures Enabled(Run(actions), Send(p))
  {
    var s := Run(actions);
    RunKeeps(actions);
    SendingIsOwed(s, p);
  }

  /** At most one answer is ever sent to a connection. */
  lemma {:induction false} OneAnswer(actions: seq<Action>, c: nat)
    requires c < |Run(actions).conns|
    ensures Run(actions).conns[c].answers <= 1
  {
    RunKeeps(actions);
    assert Phased(Run(actions).conns[c]);
  }

  /** The moments behind a dial. */
  datatype Grounds = Grounds(admitted: nat, issued: nat, allowed: nat)

  /** The chain behind a dial: the caller presented the credentials of the peering dialled
      through, was issued an id there, and that peering's own control stream then allowed
      exactly that address for that id, in an answer this connection took. */
  predicate Authorised(log: seq<Event>, c: nat, p: nat, entry: Entry, address: Address, g: Grounds, dialled: nat) {
    && g.admitted < g.issued < g.allowed < dialled < |log|
    && log[dialled] == Dialled(c, p, address)
    && log[g.admitted] == Admitted(c, p, entry.username, entry.password)
    && log[g.issued].Issued? && log[g.issued].conn == c && log[g.issued].peering == p
    && log[g.allowed] == Command(p, DialAllow(log[g.issued].id, Some(address)), Some(c))
  }

  lemma {:induction false} DialsAreAuthorised(actions: seq<Action>, k: nat) returns (g: Grounds)
    requires var log := Run(actions).log; k < |log| && log[k].Dialled?
    ensures
      var s := Run(actions);
      var e := s.log[k];
      && e.peering < |s.peerings|
      && Authorised(s.log, e.conn, e.peering, s.peerings[e.peering].entry, e.address, g, k)
  {
    var s := Run(actions);
    RunKeeps(actions);
    var e := s.log[k];
    assert EventOk(s, k, e);
    var conn := s.conns[e.conn];
    assert Documented(s, e.conn, conn);
    g := Grounds(conn.admission.value.at, conn.question.value.at, conn.outcome.command);
    AllowsExactly(s.log[g.allowed].instruction, e.address);
  }

  /** A connection that timed out, was cancelled or could not ask never dials, and none
      dials twice. */
  lemma {:induction false} SilenceNeverDials(actions: seq<Action>, i: nat, j: nat)
    requires var log := Run(actions).log; i < |log| && j < |log| && log[j].Dialled?
    requires var log := Run(actions).log; log[i].Abandoned? || (log[i].Dialled? && i != j)
    ensures var log := Run(actions).log; log[i].conn != log[j].conn
  {
    var s := Run(actions);
    RunKeeps(actions);
    assert EventOk(s, i, s.log[i]) && EventOk(s, j, s.log[j]);
  }

  /** One allowance is good for one dial: two dials were allowed by two commands, each for
      the address dialled. */
  lemma {:induction false} AllowanceUsedOnce(actions: seq<Action>, j: nat, k: nat)
    returns (first: Grounds, second: Grounds)
    requires var log := Run(actions).log; j < k < |log| && log[j].Dialled? && log[k].Dialled?
    ensures first.allowed != second.allowed
    ensures
      var s := Run(actions);
      var e, f := s.log[j], s.log[k];
      && e.peering < |s.peerings| && f.peering < |s.peerings|
      && Authorised(s.log, e.conn, e.peering, s.peerings[e.peering].entry, e.address, first, j)
      && Authorised(s.log, f.conn, f.peering, s.peerings[f.peering].entry, f.address, second, k)
  {
    first := DialsAreAuthorised(actions, j);
    second := DialsAreAuthorised(actions, k);
    SilenceNeverDials(actions, j, k);
  }

  /** No caller can authenticate into a peering whose device is closing: whoever the registry
      answers with is still in its registered stage, under the credentials presented. */
  lemma {:induction false} RegisteredIsUp(actions: seq<Action>, username: string, password: string)
    requires AuthenticateIn(Run(actions).registry, username, password).Some?
    ensures
      var s, e := Run(actions), AuthenticateIn(Run(actions).registry, username, password).value;
      && e.peering < |s.peerings| && s.peerings[e.peering].stage == Registered
      && s.peerings[e.peering].entry == Entry(e.peering, username, password)
  {
    RunKeeps(actions);
    var s := Run(actions);
    assert EntryOk(s, s.registry[username]);
  }

  // --- Ids ---------------------------------------------------------------------

  predicate IssuedBy(e: Event, p: nat) {
    e.Issued? && e.peering == p
  }

  /** How many ids a peering has issued. */
  function CountIssued(log: seq<Event>, p: nat): nat {
    if log == [] then 0
    else CountIssued(log[..|log| - 1], p) + if IssuedBy(log[|log| - 1], p) then 1 else 0
  }

  /** Each id is the count of ids so far, in a 64-bit counter. */
  predicate IdOk(log: seq<Event>, k: nat)
    requires k < |log|
  {
    log[k].Issued? ==> log[k].id == FormatUint(CountIssued(log[..k + 1], log[k].peering) % WORD)
  }

  predicate IdsOk(log: seq<Event>) {
    forall k :: 0 <= k < |log| ==> IdOk(log, k)
  }

  predicate NextOk(s: State, p: nat)
    requires p < |s.peerings|
  {
    s.peerings[p].table.next == CountIssued(s.log, p) % WORD
  }

  /** Only peerings there are have issued ids. */
  predicate FromPeerings(s: State) {
    forall k :: 0 <= k < |s.log| && s.log[k].Issued? ==> s.log[k].peering < |s.peerings|
  }

  predicate CountersOk(s: State) {
    IdsOk(s.log) && FromPeerings(s) && forall p :: 0 <= p < |s.peerings| ==> NextOk(s, p)
  }

  lemma {:induction false} NoneIssued(log: seq<Event>, p: nat)
    requires forall k :: 0 <= k < |log| && log[k].Issued? ==> log[k].peering < p
    ensures CountIssued(log, p) == 0
  {
    if log != [] {
      NoneIssued(log[..|log| - 1], p);
    }
  }

  lemma {:induction false} CountLogged(log: seq<Event>, e: Event, p: nat)
    ensures CountIssued(log + [e], p) == CountIssued(log, p) + if IssuedBy(e, p) then 1 else 0
  {
    assert (log + [e])[..|log|] == log;
  }

  lemma {:induction false} IdsLogged(log: seq<Event>, e: Event)
    requires IdsOk(log)
    requires e.Issued? ==> e.id == FormatUint((CountIssued(log, e.peering) + 1) % WORD)
    ensures IdsOk(log + [e])
  {
    var all := log + [e];
    forall k | 0 <= k < |all| ensures IdOk(all, k) {
      if k < |log| {
        assert IdOk(log, k);
        assert all[..k + 1] == log[..k + 1] && all[k] == log[k];
      } else {
        assert all[..k + 1] == all;
        if e.Issued? {
          CountLogged(log, e, e.peering);
        }
      }
    }
  }

  /** A step that issues no id moves no counter. */
  predicate SameCounters(s: State, t: State) {
    && |t.peerings| == |s.peerings|
    && forall p :: 0 <= p < |t.peerings| ==> t.peerings[p].table.next == s.peerings[p].table.next
  }

  lemma {:induction false} QuietLog(s: State, t: State, e: Event)
    requires CountersOk(s) && !e.Issued? && t.log == s.log + [e] && SameCounters(s, t)
    ensures CountersOk(t)
  {
    IdsLogged(s.log, e);
    forall p | 0 <= p < |t.peerings| ensures NextOk(t, p) {
      assert NextOk(s, p);
      CountLogged(s.log, e, p);
    }
  }

  lemma {:induction false} QuietStep(s: State, t: State)
    requires CountersOk(s) && t.log == s.log && SameCounters(s, t)
    ensures CountersOk(t)
  {
    forall p | 0 <= p < |t.peerings| ensures NextOk(t, p) {
      assert NextOk(s, p);
    }
  }

  lemma {:induction false} NextCount(n: nat)
    ensures (n % WORD + 1) % WORD == (n + 1) % WORD
  {
    if n % WORD == WORD - 1 {
      assert n + 1 == (n / WORD + 1) * WORD;
    } else {
      assert n + 1 == (n / WORD) * WORD + (n % WORD + 1);
    }
  }

  lemma {:induction false} OpenCounts(s: State, c: nat)
    requires CountersOk(s) && Enabled(s, Open(c))
    ensures CountersOk(DoOpen(s, c))
  {
    var p, t := PeeringOf(s, c), DoOpen(s, c);
    var e := Issued(c, p, NextId(s.peerings[p].table));
    assert NextOk(s, p);
    NextCount(CountIssued(s.log, p));
    IdsLogged(s.log, e);
    forall q | 0 <= q < |t.peerings| ensures NextOk(t, q) {
      assert NextOk(s, q);
      CountLogged(s.log, e, q);
    }
  }

  lemma {:induction false} StepCounts(s: State, a: Action)
    requires CountersOk(s)
    ensures CountersOk(Do(s, a))
  {
    var t := Do(s, a);
    if a.Open? && Enabled(s, a) {
      OpenCounts(s, a.conn);
    } else if a.BringUp? {
      BringUpCounts(s);
    } else if t.log == s.log {
      QuietStep(s, t);
    } else {
      QuietLog(s, t, t.log[|s.log|]);
    }
  }

  lemma {:induction false} BringUpCounts(s: State)
    requires CountersOk(s)
    ensures CountersOk(Do(s, BringUp))
  {
    var t := Do(s, BringUp);
    forall p | 0 <= p < |t.peerings| ensures NextOk(t, p) {
      if p < |s.peerings| {
        assert NextOk(s, p);
      } else {
        NoneIssued(s.log, p);
      }
    }
  }

  lemma {:induction false} RunCounts(actions: seq<Action>)
    ensures CountersOk(Run(actions))
  {
    if actions != [] {
      RunCounts(actions[..|actions| - 1]);
      StepCounts(Run(actions[..|actions| - 1]), actions[|actions| - 1]);
    }
  }

  lemma {:induction false} CountGrows(log: seq<Event>, p: nat, i: nat, j: nat)
    requires i < j < |log| && IssuedBy(log[j], p)
    ensures CountIssued(log[..i + 1], p) < CountIssued(log[..j + 1], p) <= CountIssued(log, p)
  {
    CountMonotone(log, p, i + 1, j);
    CountMonotone(log, p, j + 1, |log|);
    assert log[..|log|] == log;
    assert log[..j + 1][..j] == log[..j];
  }

  lemma {:induction false} CountMonotone(log: seq<Event>, p: nat, i: nat, j: nat)
    requires i <= j <= |log|
    ensures CountIssued(log[..i], p) <= CountIssued(log[..j], p)
    decreases j
  {
    if i < j {
      CountMonotone(log, p, i, j - 1);
      assert log[..j][..j - 1] == log[..j - 1];
    }
  }

  /** Two ids of one peering are the same exactly when a multiple of 2^64 were issued between
      them; within its first 2^64 a peering never issues an id twice. */
  lemma {:induction false} IdsRepeatExactly(actions: seq<Action>, p: nat, i: nat, j: nat)
    requires var log := Run(actions).log; i < j < |log| && IssuedBy(log[i], p) && IssuedBy(log[j], p)
    ensures
      var log := Run(actions).log;
      && (log[i].id == log[j].id <==> (CountIssued(log[..j + 1], p) - CountIssued(log[..i + 1], p)) % WORD == 0)
      && (CountIssued(log, p) <= WORD ==> log[i].id != log[j].id)
  {
    RunCounts(actions);
    RepeatsExactly(Run(actions).log, p, i, j);
  }

  lemma {:induction false} RepeatsExactly(log: seq<Event>, p: nat, i: nat, j: nat)
    requires IdsOk(log) && i < j < |log| && IssuedBy(log[i], p) && IssuedBy(log[j], p)
    ensures log[i].id == log[j].id <==> (CountIssued(log[..j + 1], p) - CountIssued(log[..i + 1], p)) % WORD == 0
    ensures CountIssued(log, p) <= WORD ==> log[i].id != log[j].id
  {
    assert IdOk(log, i) && IdOk(log, j);
    CountGrows(log, p, i, j);
    FirstCount(log, p, i);
    SameFormat(CountIssued(log[..i + 1], p), CountIssued(log[..j + 1], p));
  }

  lemma {:induction false} SameFormat(m: nat, n: nat)
    requires 1 <= m < n
    ensures FormatUint(m % WORD) == FormatUint(n % WORD) <==> (n - m) % WORD == 0
    ensures n <= WORD ==> FormatUint(m % WORD) != FormatUint(n % WORD)
  {
    SameResidue(m, n);
    if FormatUint(m % WORD) == FormatUint(n % WORD) {
      FormatInjective(m % WORD, n % WORD);
    }
  }

  lemma {:induction false} FirstCount(log: seq<Event>, p: nat, i: nat)
    requires i < |log| && IssuedBy(log[i], p)
    ensures CountIssued(log[..i + 1], p) >= 1
  {
    assert log[..i + 1][i] == log[i];
  }

  lemma {:induction false} SameResidue(m: nat, n: nat)
    requires m <= n
    ensures m % WORD == n % WORD <==> (n - m) % WORD == 0
  {
    var a, b := m / WORD, n / WORD;
    assert m == a * WORD + m % WORD && n == b * WORD + n % WORD;
    if m % WORD == n % WORD {
      assert n - m == (b - a) * WORD;
    }
    if (n - m) % WORD == 0 {
      var d := (n - m) / WORD;
      assert n - m == d * WORD;
      assert n == (a + d) * WORD + m % WORD;
    }
  }
}
