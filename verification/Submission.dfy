/** Submitting a message (`stream_message` in backend/app/api/routes/conversations.py) while any
    number of other submissions, workers and aborts run beside it.  A submission is interrupted
    only where the route awaits; each database transaction is one step. */
module Submission {
  import opened Text
  import opened Worker

  // The message table

  datatype Role = User | Assistant

  /** `author` is history: the submission that added the row. */
  datatype Row = Row(
    conversation: nat,
    sequence: nat,
    role: Role,
    request: Option<nat>,
    status: MessageStatus,
    author: nat)

  datatype Store = Store(next: map<nat, nat>, rows: seq<Row>)

  datatype StoreError = MissingConversation | UniqueViolation

  /** The table's two unique constraints; absent request ids never collide. */
  predicate Collides(rows: seq<Row>, row: Row) {
    exists i :: 0 <= i < |rows| &&
      ((rows[i].conversation == row.conversation && rows[i].sequence == row.sequence)
       || (row.request.Some? && rows[i].request == row.request))
  }

  /** One transaction: a sequence number is drawn and the row inserted, or nothing happens. */
  function Appended(s: Store, conversation: nat, role: Role, request: Option<nat>, status: MessageStatus, author: nat)
    : Result<Store, StoreError>
  {
    if conversation !in s.next then Err(MissingConversation)
    else
      var row := Row(conversation, s.next[conversation], role, request, status, author);
      if Collides(s.rows, row) then Err(UniqueViolation)
      else Ok(Store(s.next[conversation := s.next[conversation] + 1], s.rows + [row]))
  }

  predicate Answers(row: Row, conversation: nat, request: nat) {
    row.conversation == conversation && row.role == Assistant && row.request == Some(request)
  }

  /** The index of the assistant message of a request in a conversation. */
  function Lookup(rows: seq<Row>, conversation: nat, request: nat): (m: Option<nat>)
    ensures m.Some? ==> m.value < |rows| && Answers(rows[m.value], conversation, request)
    ensures m.None? ==> forall i :: 0 <= i < |rows| ==> !Answers(rows[i], conversation, request)
  {
    if rows == [] then None
    else if Answers(rows[|rows| - 1], conversation, request) then Some(|rows| - 1)
    else Lookup(rows[..|rows| - 1], conversation, request)
  }

  // Submissions

  /** Where a submission is: before its lookup; having found nothing; its question stored; its answer
      row stored; its worker started; having found an answer row (streaming or not); about to mark
      it failed; streaming someone else's answer; refused; stopped by the unique request id. */
  datatype Pc =
    | Arrived
    | Absent
    | Written
    | Committed(message: nat)
    | Launched(message: nat)
    | Found(message: nat, streaming: bool)
    | Repairing(message: nat)
    | Reused(message: nat)
    | Refused
    | Conflicted

  datatype Submission = Submission(conversation: nat, request: nat, pc: Pc)

  /** `running` are the answers with a live task; `started` lists every task ever started. */
  datatype System = System(store: Store, submissions: seq<Submission>, running: set<nat>, started: seq<nat>)

  const EMPTY := System(Store(map[], []), [], {}, [])

  datatype Step =
    | CreateConversation(conversation: nat)
    | Submit(conversation: nat, request: nat)
    | Advance(h: nat)
    | TaskEnds(message: nat)
    | Record(message: nat, status: MessageStatus)

  function At(s: System, h: nat, pc: Pc): System
    requires h < |s.submissions|
  {
    s.(submissions := s.submissions[h := s.submissions[h].(pc := pc)])
  }

  function LookUp(s: System, h: nat): System
    requires h < |s.submissions|
  {
    var me := s.submissions[h];
    if me.conversation !in s.store.next then At(s, h, Refused)
    else
      match Lookup(s.store.rows, me.conversation, me.request)
      case None => At(s, h, Absent)
      case Some(m) => At(s, h, Found(m, s.store.rows[m].status == StatusStreaming))
  }

  function WriteQuestion(s: System, h: nat): System
    requires h < |s.submissions|
  {
    match Appended(s.store, s.submissions[h].conversation, User, None, StatusCompleted, h)
    case Ok(store) => At(s.(store := store), h, Written)
    case Err(_) => At(s, h, Refused)
  }

  function WriteAnswer(s: System, h: nat): System
    requires h < |s.submissions|
  {
    var me := s.submissions[h];
    match Appended(s.store, me.conversation, Assistant, Some(me.request), StatusStreaming, h)
    case Ok(store) => At(s.(store := store), h, Committed(|s.store.rows|))
    case Err(_) => At(s, h, Conflicted)
  }

  /** `ChatTaskManager.start`: a live task under the same id wins. */
  function Launch(s: System, h: nat, m: nat): System
    requires h < |s.submissions|
  {
    var t := if m in s.running then s else s.(running := s.running + {m}, started := s.started + [m]);
    At(t, h, Launched(m))
  }

  function Marked(s: System, m: nat, status: MessageStatus): System {
    if m < |s.store.rows| then s.(store := s.store.(rows := s.store.rows[m := s.store.rows[m].(status := status)]))
    else s
  }

  function Advanced(s: System, h: nat): System
    requires h < |s.submissions|
  {
    match s.submissions[h].pc
    case Arrived => LookUp(s, h)
    case Absent => WriteQuestion(s, h)
    case Written => WriteAnswer(s, h)
    case Committed(m) => Launch(s, h, m)
    case Found(m, streaming) => At(s, h, if streaming && m !in s.running then Repairing(m) else Reused(m))
    case Repairing(m) => At(Marked(s, m, StatusError), h, Reused(m))
    case _ => s
  }

  function Next(s: System, step: Step): System {
    match step
    case CreateConversation(c) =>
      if c in s.store.next then s else s.(store := s.store.(next := s.store.next[c := 1]))
    case Submit(c, r) => s.(submissions := s.submissions + [Submission(c, r, Arrived)])
    case Advance(h) => if h < |s.submissions| then Advanced(s, h) else s
    case TaskEnds(m) => s.(running := s.running - {m})
    case Record(m, status) => Marked(s, m, status)
  }

  function RunFrom(s: System, steps: seq<Step>): System
    decreases |steps|
  {
    if steps == [] then s else RunFrom(Next(s, steps[0]), steps[1..])
  }

  // What every step keeps

  function SequencesOf(rows: seq<Row>, conversation: nat): seq<nat> {
    if rows == [] then []
    else
      var earlier := SequencesOf(rows[..|rows| - 1], conversation);
      var last := rows[|rows| - 1];
      if last.conversation == conversation then earlier + [last.sequence] else earlier
  }

  /** 1, 2, ..., `next` - 1. */
  function Upto(next: nat): seq<nat> {
    if next <= 1 then [] else Upto(next - 1) + [next - 1]
  }

  predicate Wrote(pc: Pc) {
    pc.Written? || pc.Committed? || pc.Launched? || pc.Conflicted?
  }

  predicate Holds(pc: Pc, m: nat) {
    (pc.Committed? || pc.Launched?) && pc.message == m
  }

  predicate RequestsUnique(rows: seq<Row>) {
    forall i, j :: 0 <= i < j < |rows| ==> rows[i].request.Some? ==> rows[i].request != rows[j].request
  }

  /** Every conversation's numbers are exactly 1 to its counter minus one, in insertion order. */
  ghost predicate Numbered(s: Store) {
    && (forall i :: 0 <= i < |s.rows| ==> s.rows[i].conversation in s.next)
    && (forall c :: c in s.next ==> s.next[c] >= 1 && SequencesOf(s.rows, c) == Upto(s.next[c]))
  }

  /** Every row belongs to one submission, which wrote at most one question and one answer. */
  predicate Attributed(s: System) {
    forall i :: 0 <= i < |s.store.rows| ==>
      var row := s.store.rows[i];
      && row.author < |s.submissions|
      && row.conversation == s.submissions[row.author].conversation
      && (match row.role
          case User => row.request == None && Wrote(s.submissions[row.author].pc)
          case Assistant =>
            && row.request == Some(s.submissions[row.author].request)
            && Holds(s.submissions[row.author].pc, i))
  }

  predicate OneQuestionEach(rows: seq<Row>) {
    forall i, j :: 0 <= i < j < |rows| && rows[i].role == User && rows[j].role == User ==>
      rows[i].author != rows[j].author
  }

  predicate QuestionBy(row: Row, h: nat) {
    row.role == User && row.author == h
  }

  ghost predicate Accounted(s: System) {
    forall h :: 0 <= h < |s.submissions| ==>
      var pc := s.submissions[h].pc;
      && (Wrote(pc) ==> exists i :: 0 <= i < |s.store.rows| && QuestionBy(s.store.rows[i], h))
      && (pc.Committed? || pc.Launched? ==>
            pc.message < |s.store.rows| && s.store.rows[pc.message].role == Assistant
            && s.store.rows[pc.message].author == h)
  }

  ghost predicate StartedOnce(s: System) {
    && (forall i, j :: 0 <= i < j < |s.started| ==> s.started[i] != s.started[j])
    && (forall m :: m in s.running ==> m in s.started)
    && (forall m :: m in s.started ==>
          && m < |s.store.rows| && s.store.rows[m].role == Assistant
          && s.store.rows[m].author < |s.submissions|
          && s.submissions[s.store.rows[m].author].pc == Launched(m))
  }

  ghost predicate Invariant(s: System) {
    && RequestsUnique(s.store.rows)
    && Numbered(s.store)
    && Attributed(s)
    && OneQuestionEach(s.store.rows)
    && Accounted(s)
    && StartedOnce(s)
  }

  lemma {:induction false} UptoAt(next: nat, k: nat)
    requires k < |Upto(next)|
    ensures Upto(next)[k] < next
  {
    if k < |Upto(next)| - 1 {
      UptoAt(next - 1, k);
    }
  }

  lemma {:induction false} SequencesOfHas(rows: seq<Row>, i: nat)
    requires i < |rows|
    ensures rows[i].sequence in SequencesOf(rows, rows[i].conversation)
  {
    if i < |rows| - 1 {
      SequencesOfHas(rows[..|rows| - 1], i);
    }
  }

  /** The numbering constraint never fires: the drawn number is new. */
  lemma DrawnNumberIsNew(s: Store, i: nat, conversation: nat)
    requires Numbered(s) && i < |s.rows| && conversation in s.next && s.rows[i].conversation == conversation
    ensures s.rows[i].sequence < s.next[conversation]
  {
    SequencesOfHas(s.rows, i);
    var all := SequencesOf(s.rows, conversation);
    var k :| 0 <= k < |all| && all[k] == s.rows[i].sequence;
    UptoAt(s.next[conversation], k);
  }

  lemma SequencesOfOneMore(rows: seq<Row>, row: Row, c: nat)
    ensures SequencesOf(rows + [row], c)
       == if row.conversation == c then SequencesOf(rows, c) + [row.sequence] else SequencesOf(rows, c)
  {
    assert (rows + [row])[..|rows|] == rows;
  }

  lemma RowKeepsNumbers(s: Store, row: Row)
    requires Numbered(s) && row.conversation in s.next && row.sequence == s.next[row.conversation]
    ensures Numbered(Store(s.next[row.conversation := row.sequence + 1], s.rows + [row]))
  {
    hide SequencesOf;
    forall c | c in s.next
      ensures SequencesOf(s.rows + [row], c) == if row.conversation == c then Upto(s.next[c] + 1) else Upto(s.next[c])
    {
      SequencesOfOneMore(s.rows, row, c);
    }
  }

  /** Only a request id can collide: the drawn number never does. */
  lemma CollidesOnlyOnRequest(s: Store, row: Row)
    requires Numbered(s) && row.conversation in s.next && row.sequence == s.next[row.conversation]
    ensures Collides(s.rows, row) <==>
              row.request.Some? && exists i :: 0 <= i < |s.rows| && s.rows[i].request == row.request
  {
    forall i | 0 <= i < |s.rows| && s.rows[i].conversation == row.conversation
      ensures s.rows[i].sequence != row.sequence
    {
      DrawnNumberIsNew(s, i, row.conversation);
    }
    hide Numbered;
  }

  lemma AppendedKeepsStore(
      s: Store, conversation: nat, role: Role, request: Option<nat>, status: MessageStatus, author: nat)
    requires Numbered(s) && RequestsUnique(s.rows)
    ensures var r := Appended(s, conversation, role, request, status, author);
            && (r.Ok? ==> Numbered(r.value) && RequestsUnique(r.value.rows))
            && (r.Ok? <==>
                  && conversation in s.next
                  && (request.Some? ==> forall i :: 0 <= i < |s.rows| ==> s.rows[i].request != request))
  {
    hide Numbered, Collides;
    if conversation in s.next {
      var row := Row(conversation, NextOf(s, conversation), role, request, status, author);
      RowKeepsNumbers(s, row);
      CollidesOnlyOnRequest(s, row);
    }
  }

  function NextOf(s: Store, conversation: nat): nat
    requires conversation in s.next
  {
    s.next[conversation]
  }

  lemma QuietMove(s: System, h: nat, pc: Pc)
    requires Invariant(s) && h < |s.submissions| && !Wrote(s.submissions[h].pc) && !Wrote(pc)
    ensures Invariant(At(s, h, pc))
  {
    hide Numbered, RequestsUnique;
  }

  lemma {:induction false} SequencesOfMarked(rows: seq<Row>, m: nat, status: MessageStatus, c: nat)
    requires m < |rows|
    ensures SequencesOf(rows[m := rows[m].(status := status)], c) == SequencesOf(rows, c)
  {
    var marked := rows[m := rows[m].(status := status)];
    if m < |rows| - 1 {
      assert marked[..|rows| - 1] == rows[..|rows| - 1][m := rows[m].(status := status)];
      SequencesOfMarked(rows[..|rows| - 1], m, status, c);
    } else {
      assert marked[..|rows| - 1] == rows[..|rows| - 1];
    }
  }

  lemma MarkedKeepsNumbers(s: System, m: nat, status: MessageStatus)
    requires Numbered(s.store)
    ensures Numbered(Marked(s, m, status).store)
  {
    if m < |s.store.rows| {
      forall c | c in s.store.next
        ensures SequencesOf(Marked(s, m, status).store.rows, c) == SequencesOf(s.store.rows, c)
      {
        SequencesOfMarked(s.store.rows, m, status, c);
      }
    }
  }

  lemma MarkedKeepsAccounts(s: System, m: nat, status: MessageStatus)
    requires Accounted(s)
    ensures Accounted(Marked(s, m, status))
  {
    var t := Marked(s, m, status);
    forall h | 0 <= h < |s.submissions| && Wrote(s.submissions[h].pc)
      ensures exists i :: 0 <= i < |t.store.rows| && QuestionBy(t.store.rows[i], h)
    {
      var i :| 0 <= i < |s.store.rows| && QuestionBy(s.store.rows[i], h);
      assert QuestionBy(t.store.rows[i], h);
    }
  }

  lemma MarkedKeepsUnique(s: System, m: nat, status: MessageStatus)
    requires RequestsUnique(s.store.rows) && OneQuestionEach(s.store.rows)
    ensures RequestsUnique(Marked(s, m, status).store.rows) && OneQuestionEach(Marked(s, m, status).store.rows)
  {
  }

  lemma MarkedKeepsAttribution(s: System, m: nat, status: MessageStatus)
    requires Attributed(s)
    ensures Attributed(Marked(s, m, status))
  {
  }

  lemma MarkedKeepsStarts(s: System, m: nat, status: MessageStatus)
    requires StartedOnce(s)
    ensures StartedOnce(Marked(s, m, status))
  {
  }

  lemma MarkedKeeps(s: System, m: nat, status: MessageStatus)
    requires Invariant(s)
    ensures Invariant(Marked(s, m, status))
  {
    MarkedKeepsNumbers(s, m, status);
    MarkedKeepsAccounts(s, m, status);
    MarkedKeepsUnique(s, m, status);
    MarkedKeepsAttribution(s, m, status);
    MarkedKeepsStarts(s, m, status);
    hide Marked, Numbered, RequestsUnique, Attributed, OneQuestionEach, Accounted, StartedOnce;
  }

  lemma WriteQuestionKeeps(s: System, h: nat)
    requires Invariant(s) && h < |s.submissions| && s.submissions[h].pc == Absent
    ensures Invariant(WriteQuestion(s, h))
  {
    hide Numbered, RequestsUnique, Appended;
    var me := s.submissions[h];
    AppendedKeepsStore(s.store, me.conversation, User, None, StatusCompleted, h);
    var r := Appended(s.store, me.conversation, User, None, StatusCompleted, h);
    if r.Err? {
      QuietMove(s, h, Refused);
    } else {
      RowAdded(s.store, me.conversation, User, None, StatusCompleted, h);
      QuestionAdded(s, h, r.value);
    }
  }

  /** What a transaction adds. */
  lemma RowAdded(s: Store, conversation: nat, role: Role, request: Option<nat>, status: MessageStatus, author: nat)
    requires Appended(s, conversation, role, request, status, author).Ok?
    ensures var store := Appended(s, conversation, role, request, status, author).value;
            && Extends(store, s)
            && var row := store.rows[|s.rows|];
               row.conversation == conversation && row.role == role && row.request == request
               && row.status == status && row.author == author
  {
  }

  predicate Extends(store: Store, s: Store) {
    |store.rows| == |s.rows| + 1 && forall i :: 0 <= i < |s.rows| ==> store.rows[i] == s.rows[i]
  }

  /** Submission `h` may own the row added last, and has moved on to `pc`. */
  predicate OwnRow(s: System, h: nat, row: Row, pc: Pc, at: nat)
    requires h < |s.submissions|
  {
    && row.author == h && row.conversation == s.submissions[h].conversation
    && match row.role
       case User => row.request == None && Wrote(pc)
       case Assistant => row.request == Some(s.submissions[h].request) && Holds(pc, at)
  }

  lemma ExtendedAttribution(s: System, h: nat, store: Store, pc: Pc)
    requires Attributed(s) && h < |s.submissions| && Extends(store, s.store)
    requires s.submissions[h].pc.Absent? || s.submissions[h].pc.Written?
    requires Wrote(pc) && OwnRow(s, h, store.rows[|s.store.rows|], pc, |s.store.rows|)
    ensures Attributed(At(s.(store := store), h, pc))
  {
  }

  lemma ExtendedStarts(s: System, h: nat, store: Store, pc: Pc)
    requires StartedOnce(s) && h < |s.submissions| && Extends(store, s.store)
    requires s.submissions[h].pc.Absent? || s.submissions[h].pc.Written?
    ensures StartedOnce(At(s.(store := store), h, pc))
  {
  }

  lemma QuestionAccounted(s: System, h: nat, store: Store)
    requires Accounted(s) && h < |s.submissions| && s.submissions[h].pc == Absent && Extends(store, s.store)
    requires QuestionBy(store.rows[|s.store.rows|], h)
    ensures Accounted(At(s.(store := store), h, Written))
  {
    var t := At(s.(store := store), h, Written);
    KeepsQuestions(s, t);
    assert QuestionBy(t.store.rows[|s.store.rows|], h);
  }

  lemma QuestionAdded(s: System, h: nat, store: Store)
    requires Invariant(s) && h < |s.submissions| && s.submissions[h].pc == Absent
    requires Numbered(store) && RequestsUnique(store.rows) && Extends(store, s.store)
    requires store.rows[|s.store.rows|].role == User
       && OwnRow(s, h, store.rows[|s.store.rows|], Written, |s.store.rows|)
    ensures Invariant(At(s.(store := store), h, Written))
  {
    hide Numbered, RequestsUnique;
    ExtendedAttribution(s, h, store, Written);
    ExtendedStarts(s, h, store, Written);
    var t := At(s.(store := store), h, Written);
    QuestionAccounted(s, h, store);
    hide Accounted, StartedOnce;
    assert OneQuestionEach(t.store.rows);
  }

  lemma AnswerAdded(s: System, h: nat, store: Store)
    requires Invariant(s) && h < |s.submissions| && s.submissions[h].pc == Written
    requires Numbered(store) && RequestsUnique(store.rows) && Extends(store, s.store)
    requires store.rows[|s.store.rows|].role == Assistant
    requires OwnRow(s, h, store.rows[|s.store.rows|], Committed(|s.store.rows|), |s.store.rows|)
    ensures Invariant(At(s.(store := store), h, Committed(|s.store.rows|)))
  {
    hide Numbered, RequestsUnique;
    var n := |s.store.rows|;
    ExtendedAttribution(s, h, store, Committed(n));
    ExtendedStarts(s, h, store, Committed(n));
    var t := At(s.(store := store), h, Committed(n));
    assert Accounted(t) by {
      hide Attributed, StartedOnce, OneQuestionEach;
      KeepsQuestions(s, t);
    }
    hide Accounted, StartedOnce, Attributed;
    assert OneQuestionEach(t.store.rows);
  }

  lemma KeepsQuestions(s: System, t: System)
    requires Accounted(s)
    requires |s.store.rows| <= |t.store.rows|
       && forall i :: 0 <= i < |s.store.rows| ==> t.store.rows[i] == s.store.rows[i]
    ensures forall h :: 0 <= h < |s.submissions| && Wrote(s.submissions[h].pc) ==>
              exists i :: 0 <= i < |t.store.rows| && QuestionBy(t.store.rows[i], h)
  {
    forall h | 0 <= h < |s.submissions| && Wrote(s.submissions[h].pc)
      ensures exists i :: 0 <= i < |t.store.rows| && QuestionBy(t.store.rows[i], h)
    {
      var i :| 0 <= i < |s.store.rows| && QuestionBy(s.store.rows[i], h);
      assert QuestionBy(t.store.rows[i], h);
    }
  }

  lemma WriteAnswerKeeps(s: System, h: nat)
    requires Invariant(s) && h < |s.submissions| && s.submissions[h].pc == Written
    ensures Invariant(WriteAnswer(s, h))
  {
    hide Numbered, RequestsUnique, Appended;
    var me := s.submissions[h];
    AppendedKeepsStore(s.store, me.conversation, Assistant, Some(me.request), StatusStreaming, h);
    var r := Appended(s.store, me.conversation, Assistant, Some(me.request), StatusStreaming, h);
    if r.Ok? {
      RowAdded(s.store, me.conversation, Assistant, Some(me.request), StatusStreaming, h);
      AnswerAdded(s, h, r.value);
    }
  }

  lemma LaunchKeeps(s: System, h: nat)
    requires Invariant(s) && h < |s.submissions| && s.submissions[h].pc.Committed?
    ensures Invariant(Launch(s, h, s.submissions[h].pc.message))
    ensures s.submissions[h].pc.message !in s.started
  {
    hide Numbered, RequestsUnique;
    var m := s.submissions[h].pc.message;
    assert s.store.rows[m].author == h;
    assert m !in s.started;
  }

  lemma {:induction false} NoRowsNoSequences(rows: seq<Row>, c: nat)
    requires forall i :: 0 <= i < |rows| ==> rows[i].conversation != c
    ensures SequencesOf(rows, c) == []
  {
    if rows != [] {
      NoRowsNoSequences(rows[..|rows| - 1], c);
    }
  }

  lemma AdvancedKeeps(s: System, h: nat)
    requires Invariant(s) && h < |s.submissions|
    ensures Invariant(Advanced(s, h))
  {
    hide Invariant, WriteQuestion, WriteAnswer, Launch, Marked, Appended;
    match s.submissions[h].pc {
      case Arrived =>
        var me := s.submissions[h];
        QuietMove(s, h, Refused);
        QuietMove(s, h, Absent);
        var found := Lookup(s.store.rows, me.conversation, me.request);
        if found.Some? {
          QuietMove(s, h, Found(found.value, s.store.rows[found.value].status == StatusStreaming));
        }
      case Absent => WriteQuestionKeeps(s, h);
      case Written => WriteAnswerKeeps(s, h);
      case Committed(_) => LaunchKeeps(s, h);
      case Found(m, streaming) =>
        QuietMove(s, h, Repairing(m));
        QuietMove(s, h, Reused(m));
      case Repairing(m) =>
        MarkedKeeps(s, m, StatusError);
        MarkedSame(s, m, StatusError);
        QuietMove(Marked(s, m, StatusError), h, Reused(m));
      case _ =>
    }
  }

  lemma MarkedSame(s: System, m: nat, status: MessageStatus)
    ensures Marked(s, m, status).submissions == s.submissions
    ensures Marked(s, m, status).store.next == s.store.next
  {
  }

  lemma CreateKeeps(s: System, c: nat)
    requires Invariant(s)
    ensures Invariant(Next(s, CreateConversation(c)))
  {
    hide Accounted, Attributed, OneQuestionEach, StartedOnce, RequestsUnique;
    if c !in s.store.next {
      NoRowsNoSequences(s.store.rows, c);
      var t := Next(s, CreateConversation(c));
      assert Attributed(t) && Accounted(t) && StartedOnce(t) by { KeepsOthers(s, t); }
    }
  }

  /** These parts do not look at the counters. */
  lemma KeepsOthers(s: System, t: System)
    requires t.store.rows == s.store.rows && t.submissions == s.submissions
       && t.started == s.started && t.running <= s.running
    requires Attributed(s) && Accounted(s) && StartedOnce(s)
    ensures Attributed(t) && Accounted(t) && StartedOnce(t)
  {
  }

  lemma TaskEndsKeeps(s: System, m: nat)
    requires Invariant(s)
    ensures Invariant(Next(s, TaskEnds(m)))
  {
    hide Accounted, Attributed, OneQuestionEach, StartedOnce, RequestsUnique, Numbered;
    KeepsOthers(s, Next(s, TaskEnds(m)));
  }

  lemma NextKeeps(s: System, step: Step)
    requires Invariant(s)
    ensures Invariant(Next(s, step))
  {
    hide Advanced, Marked, Invariant;
    match step {
      case Advance(h) =>
        if h < |s.submissions| {
          AdvancedKeeps(s, h);
        }
      case Record(m, status) => MarkedKeeps(s, m, status);
      case CreateConversation(c) => CreateKeeps(s, c);
      case Submit(c, r) => SubmitKeeps(s, c, r);
      case TaskEnds(m) => TaskEndsKeeps(s, m);
    }
  }

  lemma SubmitKeeps(s: System, c: nat, r: nat)
    requires Invariant(s)
    ensures Invariant(Next(s, Submit(c, r)))
  {
    hide Numbered, RequestsUnique, OneQuestionEach;
  }

  lemma {:induction false} RunKeeps(s: System, steps: seq<Step>)
    requires Invariant(s)
    ensures Invariant(RunFrom(s, steps))
    decreases |steps|
  {
    hide Invariant, Next;
    if steps != [] {
      NextKeeps(s, steps[0]);
      RunKeeps(Next(s, steps[0]), steps[1..]);
    }
  }

  // Every run from the empty store

  ghost predicate Reachable(s: System, steps: seq<Step>) {
    s == RunFrom(EMPTY, steps)
  }

  lemma ReachableKeeps(s: System, steps: seq<Step>)
    requires Reachable(s, steps)
    ensures Invariant(s)
  {
    RunKeeps(EMPTY, steps);
  }

  /** Each request id gets at most one assistant message, over all conversations. */
  lemma OneAnswerPerRequest(s: System, steps: seq<Step>, i: nat, j: nat)
    requires Reachable(s, steps)
    requires i < j < |s.store.rows| && s.store.rows[i].role == Assistant && s.store.rows[j].role == Assistant
    ensures s.store.rows[i].request.Some? && s.store.rows[i].request != s.store.rows[j].request
  {
    ReachableKeeps(s, steps);
    hide RunFrom;
    assert Attributed(s);
  }

  /** Each request id starts at most one worker, and only for a stored assistant message. */
  lemma OneWorkerPerRequest(s: System, steps: seq<Step>, i: nat, j: nat)
    requires Reachable(s, steps)
    requires i < j < |s.started|
    ensures var (m, n) := (s.started[i], s.started[j]);
            && m < |s.store.rows| && n < |s.store.rows|
            && s.store.rows[m].request.Some? && s.store.rows[m].request != s.store.rows[n].request
  {
    ReachableKeeps(s, steps);
    hide RunFrom, Numbered, Accounted, OneQuestionEach;
    var m, n := s.started[i], s.started[j];
    assert m in s.started && n in s.started;
    assert s.store.rows[m].request.Some?;
    if m < n {
      assert s.store.rows[m].request != s.store.rows[n].request;
    } else {
      assert s.store.rows[n].request.Some? && s.store.rows[n].request != s.store.rows[m].request;
    }
  }

  /** In every conversation the sequence numbers are 1, 2, ... up to the counter, in that order. */
  lemma SequencesHaveNoGaps(s: System, steps: seq<Step>, conversation: nat, k: nat)
    requires Reachable(s, steps) && conversation in s.store.next && k < |SequencesOf(s.store.rows, conversation)|
    ensures |SequencesOf(s.store.rows, conversation)| + 1 == s.store.next[conversation]
    ensures SequencesOf(s.store.rows, conversation)[k] == k + 1
  {
    ReachableKeeps(s, steps);
    UptoIs(s.store.next[conversation], k);
  }

  lemma {:induction false} UptoIs(next: nat, k: nat)
    requires k < |Upto(next)|
    ensures |Upto(next)| == next - 1 && Upto(next)[k] == k + 1
  {
    if k < |Upto(next)| - 1 {
      UptoIs(next - 1, k);
    } else if next > 2 {
      UptoIs(next - 1, 0);
    }
  }

  // Duplicate questions

  predicate IsKey(h: Submission, conversation: nat, request: nat) {
    h.conversation == conversation && h.request == request
  }

  predicate AsksIn(s: System, i: nat, conversation: nat, request: nat) {
    && i < |s.store.rows| && s.store.rows[i].role == User
    && s.store.rows[i].author < |s.submissions|
    && IsKey(s.submissions[s.store.rows[i].author], conversation, request)
  }

  predicate WroteFor(s: System, h: nat, conversation: nat, request: nat) {
    h < |s.submissions| && IsKey(s.submissions[h], conversation, request) && Wrote(s.submissions[h].pc)
  }

  ghost predicate QuestionDuplicated(s: System, conversation: nat, request: nat) {
    exists i: nat, j: nat :: i < j && AsksIn(s, i, conversation, request) && AsksIn(s, j, conversation, request)
  }

  /** A request's question is stored twice exactly when two submissions of it found no answer. */
  lemma DuplicatedIffTwoWrote(s: System, conversation: nat, request: nat)
    requires Invariant(s)
    ensures QuestionDuplicated(s, conversation, request) <==>
            exists g: nat, h: nat ::
              g < h && WroteFor(s, g, conversation, request) && WroteFor(s, h, conversation, request)
  {
    hide Numbered, StartedOnce, RequestsUnique;
    if QuestionDuplicated(s, conversation, request) {
      var i: nat, j: nat :| i < j && AsksIn(s, i, conversation, request) && AsksIn(s, j, conversation, request);
      var g, h := s.store.rows[i].author, s.store.rows[j].author;
      assert WroteFor(s, g, conversation, request) && WroteFor(s, h, conversation, request) && g != h;
    }
    if g: nat, h: nat :| g < h && WroteFor(s, g, conversation, request) && WroteFor(s, h, conversation, request) {
      var i :| 0 <= i < |s.store.rows| && QuestionBy(s.store.rows[i], g);
      var j :| 0 <= j < |s.store.rows| && QuestionBy(s.store.rows[j], h);
      assert AsksIn(s, i, conversation, request) && AsksIn(s, j, conversation, request) && i != j;
    }
  }

  predicate Finished(pc: Pc) {
    pc.Launched? || pc.Reused? || pc.Refused? || pc.Conflicted?
  }

  /** After its lookup: a submission stays on the side its lookup put it on. */
  predicate Fated(s: System, h: nat, found: bool) {
    && h < |s.submissions|
    && s.submissions[h].conversation in s.store.next
    && var pc := s.submissions[h].pc;
       if found then pc.Found? || pc.Repairing? || pc.Reused?
       else pc.Absent? || Wrote(pc)
  }

  lemma FateKept(s: System, step: Step, h: nat, found: bool)
    requires Invariant(s) && Fated(s, h, found)
    ensures Fated(Next(s, step), h, found)
  {
    hide Invariant, Advanced, Marked;
    match step {
      case Advance(g) =>
        if g < |s.submissions| {
          FateKeptByAdvance(s, g, h, found);
        }
      case Record(m, status) => MarkedSame(s, m, status);
      case _ =>
    }
  }

  lemma FateKeptByAdvance(s: System, g: nat, h: nat, found: bool)
    requires Invariant(s) && Fated(s, h, found) && g < |s.submissions|
    ensures Fated(Advanced(s, g), h, found)
  {
    hide Appended, Lookup;
    var me := s.submissions[g];
    assert Numbered(s.store) && RequestsUnique(s.store.rows);
    hide Invariant, Numbered, RequestsUnique;
    match me.pc {
      case Absent =>
        AppendedKeepsStore(s.store, me.conversation, User, None, StatusCompleted, g);
        AppendedKeepsCounters(s.store, me.conversation, User, None, StatusCompleted, g);
      case Written =>
        AppendedKeepsCounters(s.store, me.conversation, Assistant, Some(me.request), StatusStreaming, g);
      case Repairing(m) => MarkedSame(s, m, StatusError);
      case _ =>
    }
  }

  lemma AppendedKeepsCounters(
      s: Store, conversation: nat, role: Role, request: Option<nat>, status: MessageStatus, author: nat)
    ensures var r := Appended(s, conversation, role, request, status, author);
            r.Ok? ==> forall c :: c in s.next ==> c in r.value.next
  {
  }

  lemma {:induction false} FateKeptThroughRun(s: System, steps: seq<Step>, h: nat, found: bool)
    requires Invariant(s) && Fated(s, h, found)
    ensures Invariant(RunFrom(s, steps)) && Fated(RunFrom(s, steps), h, found)
    decreases |steps|
  {
    hide Invariant, Fated, Next;
    if steps != [] {
      FateKept(s, steps[0], h, found);
      NextKeeps(s, steps[0]);
      FateKeptThroughRun(Next(s, steps[0]), steps[1..], h, found);
    }
  }

  ghost predicate AddedMessages(s: System, h: nat) {
    exists i :: 0 <= i < |s.store.rows| && s.store.rows[i].author == h
  }

  /** Whatever runs beside it, a submission that finishes has added messages if and only if its lookup
      found no answer stored for the request.  So a resubmission that starts once the first answer
      row is stored adds nothing. */
  lemma AddsMessagesIffLookupFindsNothing(s: System, h: nat, steps: seq<Step>)
    requires Invariant(s) && h < |s.submissions| && s.submissions[h].pc == Arrived
    requires s.submissions[h].conversation in s.store.next
    ensures var me := s.submissions[h];
            var end := RunFrom(Next(s, Advance(h)), steps);
            var answered := exists i ::
              0 <= i < |s.store.rows| && Answers(s.store.rows[i], me.conversation, me.request);
            && h < |end.submissions|
            && (answered ==> !AddedMessages(end, h))
            && (Finished(end.submissions[h].pc) ==> (AddedMessages(end, h) <==> !answered))
  {
    hide Appended, Numbered, RequestsUnique, StartedOnce, OneQuestionEach, RunFrom;
    var me := s.submissions[h];
    var found := Lookup(s.store.rows, me.conversation, me.request).Some?;
    var looked := Next(s, Advance(h));
    NextKeeps(s, Advance(h));
    assert Fated(looked, h, found);
    FateKeptThroughRun(looked, steps, h, found);
    var end := RunFrom(looked, steps);
    if found {
      assert !Wrote(end.submissions[h].pc);
      assert !AddedMessages(end, h);
    } else if Finished(end.submissions[h].pc) {
      assert Wrote(end.submissions[h].pc);
      var i :| 0 <= i < |end.store.rows| && QuestionBy(end.store.rows[i], h);
      assert AddedMessages(end, h);
    }
  }

  lemma {:induction false} RunInTwo(s: System, first: seq<Step>, second: seq<Step>)
    ensures RunFrom(s, first + second) == RunFrom(RunFrom(s, first), second)
    decreases |first|
  {
    hide Next;
    if first == [] {
      assert first + second == second;
    } else {
      assert (first + second)[1..] == first[1..] + second;
      RunInTwo(Next(s, first[0]), first[1..], second);
    }
  }

  lemma RunOne(s: System, step: Step, rest: seq<Step>)
    ensures RunFrom(s, [step] + rest) == RunFrom(Next(s, step), rest)
  {
    hide Next;
    assert ([step] + rest)[1..] == rest;
  }

  lemma RunThree(s: System, a: Step, b: Step, c: Step)
    ensures RunFrom(s, [a, b, c]) == Next(Next(Next(s, a), b), c)
  {
    hide Next;
    RunOne(s, a, [b, c]);
    RunOne(Next(s, a), b, [c]);
    RunOne(Next(Next(s, a), b), c, []);
  }

  const ARRIVE := [CreateConversation(0), Submit(0, 7), Submit(0, 7)]
  const LOOK_AND_ASK := [Advance(0), Advance(1), Advance(0)]
  const ASK_AND_ANSWER := [Advance(1), Advance(0), Advance(1)]

  function Question(conversation: nat, sequence: nat, author: nat): Row {
    Row(conversation, sequence, User, None, StatusCompleted, author)
  }

  lemma BothLookThenOneAsks()
    ensures RunFrom(EMPTY, ARRIVE + LOOK_AND_ASK)
         == System(Store(map[0 := 2], [Question(0, 1, 0)]),
               [Submission(0, 7, Written), Submission(0, 7, Absent)], {}, [])
  {
    hide RunFrom;
    RunInTwo(EMPTY, ARRIVE, LOOK_AND_ASK);
    RunThree(EMPTY, ARRIVE[0], ARRIVE[1], ARRIVE[2]);
    var s := RunFrom(EMPTY, ARRIVE);
    assert s == System(Store(map[0 := 1], []), [Submission(0, 7, Arrived), Submission(0, 7, Arrived)], {}, []);
    RunThree(s, Advance(0), Advance(1), Advance(0));
  }

  /** Two overlapping submissions of one request: both look before either writes, both store the
      question, and only then does the unique request id stop the second. */
  lemma OverlapDuplicatesTheQuestion()
    ensures var s := RunFrom(EMPTY, ARRIVE + LOOK_AND_ASK + ASK_AND_ANSWER);
            QuestionDuplicated(s, 0, 7) && |s.submissions| == 2 && s.submissions[1].pc == Conflicted
  {
    hide RunFrom;
    BothLookThenOneAsks();
    RunInTwo(EMPTY, ARRIVE + LOOK_AND_ASK, ASK_AND_ANSWER);
    var t := RunFrom(EMPTY, ARRIVE + LOOK_AND_ASK);
    RunThree(t, Advance(1), Advance(0), Advance(1));
    var asked := Next(t, Advance(1));
    assert asked.store.rows == [Question(0, 1, 0), Question(0, 2, 1)];
    var answered := Next(asked, Advance(0));
    assert answered.store.rows[2].request == Some(7);
    assert answered.submissions[1] == Submission(0, 7, Written);
    var u := RunFrom(t, ASK_AND_ANSWER);
    assert u == At(answered, 1, Conflicted);
    assert u.store.rows[0] == Question(0, 1, 0) && u.store.rows[1] == Question(0, 2, 1);
    assert AsksIn(u, 0, 0, 7) && AsksIn(u, 1, 0, 7);
  }

  /** An id already answered in another conversation is never answered in this one, so by
      `AddsMessagesIffLookupFindsNothing` every resubmission here stores its question again. */
  lemma ForeignRequestIsNeverAnswered(s: System, i: nat, conversation: nat, request: nat, steps: seq<Step>)
    requires Invariant(s) && i < |s.store.rows|
    requires s.store.rows[i].request == Some(request) && s.store.rows[i].conversation != conversation
    ensures Lookup(RunFrom(s, steps).store.rows, conversation, request).None?
  {
    hide RunFrom, Numbered, Attributed, Accounted, StartedOnce, OneQuestionEach;
    RunKeeps(s, steps);
    RowsStay(s, steps, i);
  }

  lemma RowsStayOneStep(s: System, step: Step, i: nat)
    requires i < |s.store.rows|
    ensures var rows := Next(s, step).store.rows;
            && i < |rows| && rows[i].request == s.store.rows[i].request
            && rows[i].conversation == s.store.rows[i].conversation
  {
  }

  lemma {:induction false} RowsStay(s: System, steps: seq<Step>, i: nat)
    requires i < |s.store.rows|
    ensures var rows := RunFrom(s, steps).store.rows;
            && i < |rows| && rows[i].request == s.store.rows[i].request
            && rows[i].conversation == s.store.rows[i].conversation
    decreases |steps|
  {
    hide Next;
    if steps != [] {
      RowsStayOneStep(s, steps[0], i);
      RowsStay(Next(s, steps[0]), steps[1..], i);
    }
  }

  // Duplicate questions, told from the steps alone

  /** Step `k` is the lookup of submission `h`, in a conversation that exists and holds no answer to it. */
  ghost predicate LooksInVain(steps: seq<Step>, h: nat, k: nat) {
    && k < |steps| && steps[k] == Advance(h)
    && var s := RunFrom(EMPTY, steps[..k]);
       && h < |s.submissions| && s.submissions[h].pc == Arrived
       && var me := s.submissions[h];
          && me.conversation in s.store.next
          && Lookup(s.store.rows, me.conversation, me.request).None?
  }

  predicate GoesOn(steps: seq<Step>, h: nat, k: nat) {
    exists l :: k < l < |steps| && steps[l] == Advance(h)
  }

  ghost predicate LookedInVain(steps: seq<Step>, h: nat) {
    exists k: nat :: LooksInVain(steps, h, k)
  }

  /** Submission `h` looked in vain and later took a further step. */
  ghost predicate WentOn(steps: seq<Step>, h: nat) {
    exists k: nat :: LooksInVain(steps, h, k) && GoesOn(steps, h, k)
  }

  /** Where a submission stands shows what its lookup found, and the other way round. */
  ghost predicate Tracked(steps: seq<Step>, h: nat) {
    var s := RunFrom(EMPTY, steps);
    if h < |s.submissions| then
      var me := s.submissions[h];
      && (LookedInVain(steps, h) <==> me.pc.Absent? || Wrote(me.pc))
      && (WentOn(steps, h) <==> Wrote(me.pc))
      && (me.pc.Absent? || Wrote(me.pc) ==> me.conversation in s.store.next)
    else !LookedInVain(steps, h)
  }

  lemma RunOneLast(s: System, before: seq<Step>, step: Step)
    ensures RunFrom(s, before + [step]) == Next(RunFrom(s, before), step)
  {
    hide Next;
    RunInTwo(s, before, [step]);
    RunOne(RunFrom(s, before), step, []);
    NoSteps(Next(RunFrom(s, before), step));
    assert [step] + [] == [step];
  }

  /** A step that is not `h`'s own changes nothing about `h`'s lookups. */
  lemma OthersLookElsewhere(before: seq<Step>, step: Step, h: nat)
    requires step != Advance(h)
    ensures LookedInVain(before + [step], h) <==> LookedInVain(before, h)
    ensures WentOn(before + [step], h) <==> WentOn(before, h)
  {
    hide RunFrom, Lookup;
    var steps := before + [step];
    forall k: nat
      ensures LooksInVain(steps, h, k) <==> LooksInVain(before, h, k)
      ensures LooksInVain(before, h, k) ==> (GoesOn(steps, h, k) <==> GoesOn(before, h, k))
    {
      if k < |before| {
        assert steps[..k] == before[..k];
        if l :| k < l < |before| && before[l] == Advance(h) {
          assert steps[l] == Advance(h);
        }
      }
    }
  }

  /** `h`'s own step is a lookup when it has just arrived, and otherwise goes on. */
  lemma OwnStepLooksOrGoesOn(before: seq<Step>, h: nat)
    requires h < |RunFrom(EMPTY, before).submissions|
    ensures var steps, s := before + [Advance(h)], RunFrom(EMPTY, before);
            var me := s.submissions[h];
            var vain := me.pc == Arrived && me.conversation in s.store.next
                        && Lookup(s.store.rows, me.conversation, me.request).None?;
            && (LookedInVain(steps, h) <==> LookedInVain(before, h) || vain)
            && (WentOn(steps, h) <==> LookedInVain(before, h))
  {
    hide RunFrom, Lookup;
    var steps := before + [Advance(h)];
    var n := |before|;
    assert steps[..n] == before && steps[n] == Advance(h);
    forall k: nat | k < n
      ensures LooksInVain(steps, h, k) <==> LooksInVain(before, h, k)
      ensures GoesOn(steps, h, k)
    {
      assert steps[..k] == before[..k];
    }
    assert !GoesOn(steps, h, n);
    if LookedInVain(before, h) {
      var k: nat :| LooksInVain(before, h, k);
      assert LooksInVain(steps, h, k) && GoesOn(steps, h, k);
    }
    var s := RunFrom(EMPTY, before);
    var me := s.submissions[h];
    if me.pc == Arrived && me.conversation in s.store.next && Lookup(s.store.rows, me.conversation, me.request).None? {
      assert LooksInVain(steps, h, n);
    }
  }

  /** One own step: a lookup in vain waits, a waiting submission writes, a writer has written. */
  lemma {:induction false} OwnStepMoves(s: System, h: nat)
    requires Invariant(s) && h < |s.submissions|
    requires s.submissions[h].pc.Absent? ==> s.submissions[h].conversation in s.store.next
    ensures var me, t := s.submissions[h], Next(s, Advance(h));
            && h < |t.submissions|
            && t.submissions[h].conversation == me.conversation
            && var pc := t.submissions[h].pc;
               && (pc.Absent? <==> me.pc == Arrived && me.conversation in s.store.next
                                   && Lookup(s.store.rows, me.conversation, me.request).None?)
               && (Wrote(pc) <==> me.pc.Absent? || Wrote(me.pc))
  {
    hide Appended, Lookup, Marked;
    var me := s.submissions[h];
    assert Numbered(s.store) && RequestsUnique(s.store.rows);
    hide Invariant, Numbered, RequestsUnique;
    match me.pc {
      case Absent => AppendedKeepsStore(s.store, me.conversation, User, None, StatusCompleted, h);
      case Repairing(m) => MarkedSame(s, m, StatusError);
      case _ =>
    }
  }

  lemma ConversationsStay(s: System, step: Step)
    ensures forall c :: c in s.store.next ==> c in Next(s, step).store.next
  {
    hide Lookup, Collides;
  }

  lemma {:induction false} EverySubmissionIsTracked(steps: seq<Step>, h: nat)
    ensures Tracked(steps, h)
    decreases |steps|
  {
    hide RunFrom, LookedInVain, WentOn, Next, Invariant, Lookup;
    if steps == [] {
      NothingLookedYet(h);
    } else {
      var n := |steps| - 1;
      var before, step := steps[..n], steps[n];
      EverySubmissionIsTracked(before, h);
      assert steps == before + [step];
      RunOneLast(EMPTY, before, step);
      RunFromEmptyKeeps(before);
      var s := RunFrom(EMPTY, before);
      ConversationsStay(s, step);
      if step != Advance(h) {
        OthersLookElsewhere(before, step, h);
        if h < |s.submissions| {
          OthersLeaveItBe(s, step, h);
        } else {
          NewcomersHaveArrived(s, step, h);
          WentOnLooked(before, h);
        }
      } else if h < |s.submissions| {
        OwnStepLooksOrGoesOn(before, h);
        OwnStepMoves(s, h);
      } else {
        NobodyMoves(before, h);
      }
    }
  }

  lemma RunFromEmptyKeeps(steps: seq<Step>)
    ensures Invariant(RunFrom(EMPTY, steps))
  {
    hide RunFrom;
    RunKeeps(EMPTY, steps);
  }

  lemma NothingLookedYet(h: nat)
    ensures Tracked([], h)
  {
  }

  lemma WentOnLooked(steps: seq<Step>, h: nat)
    ensures WentOn(steps, h) ==> LookedInVain(steps, h)
  {
  }

  lemma NewcomersHaveArrived(s: System, step: Step, h: nat)
    requires h >= |s.submissions|
    ensures h < |Next(s, step).submissions| ==> Next(s, step).submissions[h].pc == Arrived
  {
    hide Lookup, Appended;
  }

  lemma NobodyMoves(before: seq<Step>, h: nat)
    requires h >= |RunFrom(EMPTY, before).submissions| && !LookedInVain(before, h)
    ensures Next(RunFrom(EMPTY, before), Advance(h)) == RunFrom(EMPTY, before)
    ensures !LookedInVain(before + [Advance(h)], h)
  {
    hide RunFrom, Lookup;
    var steps := before + [Advance(h)];
    assert steps[..|before|] == before;
    forall k: nat
      ensures !LooksInVain(steps, h, k)
    {
      if k < |before| {
        assert steps[..k] == before[..k];
        assert !LooksInVain(before, h, k);
      }
    }
  }

  /** Whose submission it is, once it has arrived. */
  ghost predicate OfKey(steps: seq<Step>, h: nat, conversation: nat, request: nat) {
    var s := RunFrom(EMPTY, steps);
    h < |s.submissions| && IsKey(s.submissions[h], conversation, request)
  }

  /** The exact condition, over every run and told from its steps: a request's question is stored twice if
      and only if two submissions of it each looked while no answer to it stood in the conversation, and
      each then took a further step. */
  lemma DuplicatedIffTwoLookedInVain(steps: seq<Step>, conversation: nat, request: nat)
    ensures QuestionDuplicated(RunFrom(EMPTY, steps), conversation, request) <==>
            exists g: nat, h: nat ::
              && g < h
              && OfKey(steps, g, conversation, request) && WentOn(steps, g)
              && OfKey(steps, h, conversation, request) && WentOn(steps, h)
  {
    hide RunFrom, WentOn, LookedInVain, QuestionDuplicated, Invariant;
    var s := RunFrom(EMPTY, steps);
    RunFromEmptyKeeps(steps);
    DuplicatedIffTwoWrote(s, conversation, request);
    forall h: nat
      ensures WroteFor(s, h, conversation, request) <==> OfKey(steps, h, conversation, request) && WentOn(steps, h)
    {
      EverySubmissionIsTracked(steps, h);
    }
  }

  // The repair of an answer that looks abandoned

  predicate NotAdvancedIn(steps: seq<Step>, h: nat) {
    forall k :: 0 <= k < |steps| ==> steps[k] != Advance(h)
  }

  lemma OthersLeaveItBe(s: System, step: Step, h: nat)
    requires h < |s.submissions| && step != Advance(h)
    ensures var t := Next(s, step); h < |t.submissions| && t.submissions[h] == s.submissions[h]
  {
  }

  /** Between its own steps a submission stands still. */
  lemma {:induction false} StandsStill(s: System, steps: seq<Step>, h: nat)
    requires h < |s.submissions| && NotAdvancedIn(steps, h)
    ensures var t := RunFrom(s, steps); h < |t.submissions| && t.submissions[h] == s.submissions[h]
    decreases |steps|
  {
    hide Next;
    if steps != [] {
      OthersLeaveItBe(s, steps[0], h);
      StandsStill(Next(s, steps[0]), steps[1..], h);
    }
  }

  /** The states around a submission's three steps: it looks its answer up, checks for a running worker,
      and writes, with any number of other steps in between. */
  datatype Repair = Repair(looking: System, checking: System, writing: System, end: System)

  function RepairOf(s: System, h: nat, toCheck: seq<Step>, toWrite: seq<Step>): Repair {
    var checking := RunFrom(Next(s, Advance(h)), toCheck);
    var writing := RunFrom(Next(checking, Advance(h)), toWrite);
    Repair(s, checking, writing, Next(writing, Advance(h)))
  }

  predicate StatusIs(s: System, m: nat, status: MessageStatus) {
    m < |s.store.rows| && s.store.rows[m].status == status
  }

  lemma StatusChanges(s: System, step: Step, m: nat)
    requires m < |s.store.rows|
    ensures var rows := Next(s, step).store.rows;
            && m < |rows| && rows[m].role == s.store.rows[m].role
            && (rows[m].status == s.store.rows[m].status || rows[m].status == StatusError
                || step == Record(m, rows[m].status))
  {
    hide Lookup, Collides;
  }

  /** An answer that becomes completed has been recorded so on the way. */
  lemma {:induction false} CompletedMeansRecorded(s: System, steps: seq<Step>, m: nat)
    requires m < |s.store.rows| && s.store.rows[m].status != StatusCompleted
    ensures StatusIs(RunFrom(s, steps), m, StatusCompleted) ==> Record(m, StatusCompleted) in steps
    decreases |steps|
  {
    hide Next;
    if steps != [] && steps[0] != Record(m, StatusCompleted) {
      StatusChanges(s, steps[0], m);
      CompletedMeansRecorded(Next(s, steps[0]), steps[1..], m);
    }
  }

  /** A resubmission turns a completed answer into a failed one exactly when the answer was streaming at
      its lookup, no worker was running at its check, and the answer stood completed when it wrote.  The
      completed status was then recorded after the lookup, whether its worker was still running at the
      lookup or already gone with its write on the way. */
  lemma RepairOverwritesIff(s: System, h: nat, m: nat, toCheck: seq<Step>, toWrite: seq<Step>)
    requires h < |s.submissions| && s.submissions[h].pc == Arrived
    requires s.submissions[h].conversation in s.store.next
    requires Lookup(s.store.rows, s.submissions[h].conversation, s.submissions[h].request) == Some(m)
    requires NotAdvancedIn(toCheck, h) && NotAdvancedIn(toWrite, h)
    ensures var r := RepairOf(s, h, toCheck, toWrite);
            StatusIs(r.writing, m, StatusCompleted) && StatusIs(r.end, m, StatusError)
            <==>
            && StatusIs(s, m, StatusStreaming)
            && m !in r.checking.running
            && StatusIs(r.writing, m, StatusCompleted)
    ensures var r := RepairOf(s, h, toCheck, toWrite);
            StatusIs(s, m, StatusStreaming) && StatusIs(r.writing, m, StatusCompleted) ==>
              Record(m, StatusCompleted) in toCheck || Record(m, StatusCompleted) in toWrite
  {
    hide Lookup, RunFrom;
    var r := RepairOf(s, h, toCheck, toWrite);
    var looked := Next(s, Advance(h));
    assert looked.submissions[h].pc == Found(m, s.store.rows[m].status == StatusStreaming);
    StandsStill(looked, toCheck, h);
    var checked := Next(r.checking, Advance(h));
    StandsStill(checked, toWrite, h);
    if StatusIs(s, m, StatusStreaming) {
      CompletedMeansRecorded(looked, toCheck, m);
      RowsStay(looked, toCheck, m);
      if !StatusIs(r.checking, m, StatusCompleted) {
        CheckWritesNothing(r.checking, h, m);
        CompletedMeansRecorded(checked, toWrite, m);
      }
    }
  }

  lemma CheckWritesNothing(s: System, h: nat, m: nat)
    requires h < |s.submissions| && s.submissions[h].pc.Found?
    ensures Next(s, Advance(h)).store == s.store
  {
  }

  /** One question and its answer, streamed by a running worker, and a resubmission that has arrived. */
  const ANSWERED := System(
    Store(map[0 := 3], [Question(0, 1, 0), Row(0, 2, Assistant, Some(7), StatusStreaming, 0)]),
    [Submission(0, 7, Launched(1)), Submission(0, 7, Arrived)], {1}, [1])

  /** It does happen: the answer to submission 0 completes and its worker ends after submission 1 has
      looked, and submission 1 then marks it failed. */
  lemma LateRepairOverwrites()
    ensures var r := RepairOf(ANSWERED, 1, [Record(1, StatusCompleted), TaskEnds(1)], []);
            StatusIs(r.writing, 1, StatusCompleted) && StatusIs(r.end, 1, StatusError)
  {
    hide RunFrom;
    var looked := Next(ANSWERED, Advance(1));
    assert looked.submissions[1].pc == Found(1, true);
    RunOne(looked, Record(1, StatusCompleted), [TaskEnds(1)]);
    RunOne(Next(looked, Record(1, StatusCompleted)), TaskEnds(1), []);
    var finished := Next(Next(looked, Record(1, StatusCompleted)), TaskEnds(1));
    NoSteps(finished);
    NoSteps(Next(finished, Advance(1)));
    assert [Record(1, StatusCompleted)] + [TaskEnds(1)] == [Record(1, StatusCompleted), TaskEnds(1)];
    assert [TaskEnds(1)] + [] == [TaskEnds(1)];
  }

  lemma NoSteps(s: System)
    ensures RunFrom(s, []) == s
  {
  }

  /** That state is reached by one submission and the arrival of its resubmission. */
  lemma AnsweredIsReached()
    ensures var s := RunFrom(EMPTY, [CreateConversation(0), Submit(0, 7), Advance(0)]);
            var t := RunFrom(s, [Advance(0), Advance(0), Advance(0)]);
            Next(t, Submit(0, 7)) == ANSWERED
  {
    hide RunFrom;
    RunThree(EMPTY, CreateConversation(0), Submit(0, 7), Advance(0));
    var s := RunFrom(EMPTY, [CreateConversation(0), Submit(0, 7), Advance(0)]);
    assert s == System(Store(map[0 := 1], []), [Submission(0, 7, Absent)], {}, []);
    RunThree(s, Advance(0), Advance(0), Advance(0));
    var asked := Next(s, Advance(0));
    assert asked == System(Store(map[0 := 2], [Question(0, 1, 0)]), [Submission(0, 7, Written)], {}, []);
    var committed := Next(asked, Advance(0));
    assert committed.store.next == map[0 := 3];
  }

  // Aborting an answer

  /** The states around an abort request: it asks for a running task to cancel, reads the row if there is
      none, and writes, with any number of other steps in between. */
  datatype Abort = Abort(checking: System, reading: System, writing: System, end: System)

  predicate IsStreamingAnswer(s: System, m: nat) {
    StatusIs(s, m, StatusStreaming) && s.store.rows[m].role == Assistant
  }

  function AbortOf(s: System, m: nat, toRead: seq<Step>, toWrite: seq<Step>): Abort {
    var reading := RunFrom(s, toRead);
    var writing := RunFrom(reading, toWrite);
    var writes := m !in s.running && IsStreamingAnswer(reading, m);
    Abort(s, reading, writing, if writes then Marked(writing, m, StatusAborted) else writing)
  }

  /** An abort turns a completed answer into an aborted one exactly when no worker was running when it
      asked, the answer was streaming when it read, and a completed status landed before it wrote, with
      nothing marking the answer otherwise since. */
  lemma AbortOverwritesIff(s: System, m: nat, toRead: seq<Step>, toWrite: seq<Step>)
    ensures var a := AbortOf(s, m, toRead, toWrite);
            StatusIs(a.writing, m, StatusCompleted) && StatusIs(a.end, m, StatusAborted)
            <==>
            && m !in s.running
            && IsStreamingAnswer(a.reading, m)
            && Record(m, StatusCompleted) in toWrite
            && StatusIs(a.writing, m, StatusCompleted)
  {
    hide RunFrom;
    var reading := RunFrom(s, toRead);
    if IsStreamingAnswer(reading, m) {
      CompletedMeansRecorded(reading, toWrite, m);
    }
  }

  /** It does happen: the task is gone, its write still on the way when the row is read. */
  lemma LateAbortOverwrites()
    ensures var a := AbortOf(Next(ANSWERED, TaskEnds(1)), 1, [], [Record(1, StatusCompleted)]);
            StatusIs(a.writing, 1, StatusCompleted) && StatusIs(a.end, 1, StatusAborted)
  {
    hide RunFrom;
    var gone := Next(ANSWERED, TaskEnds(1));
    NoSteps(gone);
    RunOne(gone, Record(1, StatusCompleted), []);
    NoSteps(Next(gone, Record(1, StatusCompleted)));
    assert [Record(1, StatusCompleted)] + [] == [Record(1, StatusCompleted)];
  }

  // The route and the store as objects

  class ConversationStore {
    var next: map<nat, nat>
    var rows: seq<Row>

    constructor ()
      ensures View() == Store(map[], [])
    {
      next, rows := map[], [];
    }

    ghost function View(): Store
      reads this
    {
      Store(next, rows)
    }

    /** A violated constraint rolls the counter back. */
    method AppendMessage(conversation: nat, role: Role, request: Option<nat>, status: MessageStatus, author: nat)
      returns (r: Result<nat, StoreError>)
      modifies this
      ensures match Appended(old(View()), conversation, role, request, status, author)
              case Ok(s) => View().next == s.next && rows == s.rows && r == Ok(|old(rows)|)
              case Err(e) => View() == old(View()) && r == Err(e)
    {
      if conversation !in next {
        return Err(MissingConversation);
      }
      var before := next;
      var sequence := next[conversation];
      next := next[conversation := sequence + 1];
      var row := Row(conversation, sequence, role, request, status, author);
      if Collides(rows, row) {
        next := before;
        return Err(UniqueViolation);
      }
      r := Ok(|rows|);
      rows := rows + [row];
    }

    method FindAnswer(conversation: nat, request: nat) returns (m: Option<nat>)
      ensures m == Lookup(rows, conversation, request)
    {
      var n := |rows|;
      assert rows[..n] == rows;
      while n > 0
        invariant n <= |rows|
        invariant Lookup(rows[..n], conversation, request) == Lookup(rows, conversation, request)
      {
        assert rows[..n][..n - 1] == rows[..n - 1];
        if Answers(rows[n - 1], conversation, request) {
          return Some(n - 1);
        }
        n := n - 1;
      }
      return None;
    }

    method Complete(m: nat, status: MessageStatus)
      requires m < |rows|
      modifies this`rows
      ensures rows == old(rows)[m := old(rows)[m].(status := status)]
    {
      rows := rows[m := rows[m].(status := status)];
    }
  }

  /** A submission that nothing interrupts. */
  function Alone(s: System, conversation: nat, request: nat): System {
    var h := |s.submissions|;
    Advanced(Advanced(Advanced(Advanced(Next(s, Submit(conversation, request)), h), h), h), h)
  }

  lemma AloneRefused(s: System, conversation: nat, request: nat)
    requires conversation !in s.store.next
    ensures Alone(s, conversation, request) == At(Next(s, Submit(conversation, request)), |s.submissions|, Refused)
  {
  }

  lemma AloneReused(s: System, conversation: nat, request: nat)
    requires conversation in s.store.next && Lookup(s.store.rows, conversation, request).Some?
    ensures var m := Lookup(s.store.rows, conversation, request).value;
            var stale := s.store.rows[m].status == StatusStreaming && m !in s.running;
            Alone(s, conversation, request)
            == At(Next(if stale then Marked(s, m, StatusError) else s, Submit(conversation, request)),
                  |s.submissions|, Reused(m))
  {
    hide Lookup;
  }

  lemma AloneAnswered(s: System, conversation: nat, request: nat)
    requires conversation in s.store.next && Lookup(s.store.rows, conversation, request).None?
    ensures var h := |s.submissions|;
            var t := Next(s, Submit(conversation, request));
            var asked := Appended(s.store, conversation, User, None, StatusCompleted, h);
            Alone(s, conversation, request) ==
              if asked.Err? then At(t, h, Refused)
              else
                var answered := Appended(asked.value, conversation, Assistant, Some(request), StatusStreaming, h);
                if answered.Err? then At(t.(store := asked.value), h, Conflicted)
                else Launch(t.(store := answered.value), h, |asked.value.rows|)
  {
    hide Lookup, Appended;
  }

  class Backend {
    const store: ConversationStore
    var running: set<nat>
    var submitted: nat
    ghost var started: seq<nat>
    ghost var submissions: seq<Submission>

    constructor ()
      ensures fresh(store) && Valid() && View() == EMPTY
    {
      store := new ConversationStore();
      running, submitted, started, submissions := {}, 0, [], [];
    }

    ghost predicate Valid()
      reads this
    {
      submitted == |submissions|
    }

    ghost function View(): System
      reads this, store
    {
      System(store.View(), submissions, running, started)
    }

    ghost method Move(pc: Pc)
      requires |submissions| > 0
      modifies this`submissions
      ensures submissions
         == old(submissions)[|old(submissions)| - 1 := old(submissions)[|old(submissions)| - 1].(pc := pc)]
    {
      var h := |submissions| - 1;
      submissions := submissions[h := submissions[h].(pc := pc)];
    }

    /** The route, start to finish, with nothing running beside it. */
    method StreamMessage(conversation: nat, request: nat) returns (answer: Option<nat>)
      requires Valid()
      modifies this, store
      ensures Valid()
      ensures View() == Alone(old(View()), conversation, request)
      ensures |submissions| == |old(submissions)| + 1
      ensures var pc := submissions[|old(submissions)|].pc;
              && Finished(pc)
              && answer == if pc.Launched? || pc.Reused? then Some(pc.message) else None
    {
      hide Appended, Lookup, Alone;
      ghost var s := View();
      if conversation !in store.next {
        AloneRefused(s, conversation, request);
      } else if Lookup(store.rows, conversation, request).Some? {
        AloneReused(s, conversation, request);
      } else {
        AloneAnswered(s, conversation, request);
      }
      var h := submitted;
      submissions := submissions + [Submission(conversation, request, Arrived)];
      submitted := submitted + 1;
      if conversation !in store.next {
        Move(Refused);
        return None;
      }
      answer := store.FindAnswer(conversation, request);
      if answer.Some? {
        var m := answer.value;
        if store.rows[m].status == StatusStreaming && m !in running {
          store.Complete(m, StatusError);
        }
        Move(Reused(m));
        return;
      }
      var asked := store.AppendMessage(conversation, User, None, StatusCompleted, h);
      if asked.Err? {
        Move(Refused);
        return None;
      }
      var added := store.AppendMessage(conversation, Assistant, Some(request), StatusStreaming, h);
      if added.Err? {
        Move(Conflicted);
        return None;
      }
      var m := added.value;
      if m !in running {
        running, started := running + {m}, started + [m];
      }
      Move(Launched(m));
      return Some(m);
    }

    /** The abort route, with nothing running beside it: a running task is asked to stop, an answer that
        only looks running is marked. */
    method AbortMessage(m: nat) returns (aborted: bool)
      requires Valid()
      modifies store
      ensures Valid()
      ensures View() == AbortOf(old(View()), m, [], []).end
      ensures aborted <==> m in running || IsStreamingAnswer(old(View()), m)
    {
      hide RunFrom;
      NoSteps(View());
      if m in running {
        return true;
      }
      if m < |store.rows| && store.rows[m].role == Assistant && store.rows[m].status == StatusStreaming {
        store.Complete(m, StatusAborted);
        return true;
      }
      return false;
    }
  }
}
