/** The object store over whole runs, with any number of failures, crashes and interrupted recoveries:
    the image stays healthy, the request history only grows, and a request takes effect at most once. */
module StoreRuns {
  import opened Bytes
  import opened OndiskFormat
  import opened Journal
  import opened JournalProtocol
  import opened JournalRuns
  import opened JournalStore
  import opened Health
  import opened LedgerFormat
  import opened Ledger
  import opened LedgerImage
  import opened LedgerPlan
  import opened StoreOps

  /** The transaction is an operation of the store, planned on this image. */
  ghost predicate StoreTx(sb: Superblock, d: Image, tx: Transaction) {
    exists op :: OpPlanned(sb, d, op) && OpTx(op) == tx
  }

  /** Every transaction of the run is one of the store, as long as it starts from a sound image. */
  ghost predicate StoreRun(sb: Superblock, run: seq<State>) {
    forall k: nat :: BeginsAt(sb, run, k) && Sound(sb, run[k].durable) ==> StoreTx(sb, run[k].durable, run[k + 1].tx)
  }

  /** A run of the store from a sound formatted image. */
  ghost predicate ServedRun(sb: Superblock, run: seq<State>) {
    Run(sb, run) && StoreRun(sb, run) && Sound(sb, run[0].durable)
  }

  /** The image has the ledger the store needs for idempotent requests. */
  predicate HasLedger(sb: Superblock) {
    sb.featureIncompat == LEDGER_FEATURE
  }

  predicate Idle(s: State) {
    s.up && s.todo == []
  }

  lemma IdleIsQuiet(sb: Superblock, run: seq<State>, k: nat)
    requires Run(sb, run) && k < |run| && Idle(run[k])
    ensures Quiet(sb, run[k])
  {
    hide Run, ImageInv, Clean, StageInv;
    RunHasInv(sb, run, k);
  }

  lemma StartIsQuiet(sb: Superblock, run: seq<State>)
    requires Run(sb, run)
    ensures Quiet(sb, run[0])
  {
    hide Next, Formatted, Clean;
    FormattedIsClean(sb, run[0].durable);
  }

  // ---- Health ----

  lemma StoreKeepsSound(sb: Superblock, d: Image, tx: Transaction)
    requires Sound(sb, d) && StoreTx(sb, d, tx)
    ensures KeepsP(sb, e => Sound(sb, e), d, tx)
  {
    hide Sound, OpPlanned, OpTx, HasHistory, History, HomeAgrees, AfterImage;
    var op :| OpPlanned(sb, d, op) && OpTx(op) == tx;
    OpIsSound(sb, d, op);
    forall e | HomeAgrees(sb, e, d, tx.ordered.Keys)
      ensures Sound(sb, e)
    {
      OpUncommitted(sb, d, op, e);
    }
    forall e | HomeAgrees(sb, e, AfterImage(d, tx), {})
      ensures Sound(sb, e)
    {
      SameHomeIsSound(sb, AfterImage(d, tx), e);
    }
  }

  /** Health over whole runs: from a sound formatted image, every idle state of every run is sound. */
  lemma StoreStaysSound(sb: Superblock, run: seq<State>, j: nat)
    requires ServedRun(sb, run) && j < |run| && Idle(run[j])
    ensures Sound(sb, run[j].durable)
  {
    hide Next, Init, Begin, Sound, StoreTx, HomeAgrees, KeepsP, Quiet, HasHistory, History;
    StartIsQuiet(sb, run);
    var P := e => Sound(sb, e);
    forall e: Image | HomeAgrees(sb, e, run[0].durable, {})
      ensures P(e)
    {
      SameHomeIsSound(sb, run[0].durable, e);
    }
    forall k: nat | BeginsAt(sb, run, k) && P(run[k].durable)
      ensures KeepsP(sb, P, run[k].durable, run[k + 1].tx)
    {
      StoreKeepsSound(sb, run[k].durable, run[k + 1].tx);
    }
    RunsPreserve(sb, P, run, 0, j);
  }

  // ---- History ----

  /** The image is sound and its history starts with `rs`. */
  ghost predicate Remembers(sb: Superblock, d: Image, rs: seq<LedgerRecord>) {
    Sound(sb, d) && HasHistory(sb, d) && rs <= History(sb, d)
  }

  lemma StoreKeepsHistory(sb: Superblock, d: Image, tx: Transaction, rs: seq<LedgerRecord>)
    requires Remembers(sb, d, rs) && StoreTx(sb, d, tx)
    ensures KeepsP(sb, e => Remembers(sb, e, rs), d, tx)
  {
    hide Remembers, OpPlanned, OpTx, HasHistory, History, HomeAgrees, AfterImage;
    var op :| OpPlanned(sb, d, op) && OpTx(op) == tx;
    forall e | HomeAgrees(sb, e, d, tx.ordered.Keys)
      ensures Remembers(sb, e, rs)
    {
      UndoneRemembers(sb, d, op, rs, e);
    }
    forall e | HomeAgrees(sb, e, AfterImage(d, tx), {})
      ensures Remembers(sb, e, rs)
    {
      DoneRemembers(sb, d, op, rs, e);
    }
  }

  lemma UndoneRemembers(sb: Superblock, d: Image, op: Op, rs: seq<LedgerRecord>, e: Image)
    requires Remembers(sb, d, rs) && OpPlanned(sb, d, op) && HomeAgrees(sb, e, d, OpTx(op).ordered.Keys)
    ensures Remembers(sb, e, rs)
  {
    hide Sound, OpPlanned, OpTx, HasHistory, History, HomeAgrees;
    OpUncommitted(sb, d, op, e);
  }

  lemma DoneRemembers(sb: Superblock, d: Image, op: Op, rs: seq<LedgerRecord>, e: Image)
    requires Remembers(sb, d, rs) && OpPlanned(sb, d, op) && HomeAgrees(sb, e, AfterImage(d, OpTx(op)), {})
    ensures Remembers(sb, e, rs)
  {
    hide Sound, OpPlanned, OpTx, HasHistory, History, HomeAgrees, AfterImage;
    OpIsSound(sb, d, op);
    SameHomeIsSound(sb, AfterImage(d, OpTx(op)), e);
  }

  /** Recorded requests are never forgotten or changed: the history of an idle state is a prefix of the
      history of every later idle state. */
  lemma HistoryGrows(sb: Superblock, run: seq<State>, i: nat, j: nat)
    requires ServedRun(sb, run) && HasLedger(sb) && i <= j < |run| && Idle(run[i]) && Idle(run[j])
    ensures Remembers(sb, run[j].durable, History(sb, run[i].durable))
  {
    hide Next, Init, Begin, Sound, StoreTx, HomeAgrees, KeepsP, Quiet, HasHistory, History;
    StoreStaysSound(sb, run, i);
    SoundHasHistory(sb, run[i].durable);
    IdleIsQuiet(sb, run, i);
    var rs := History(sb, run[i].durable);
    var P := e => Remembers(sb, e, rs);
    forall e: Image | HomeAgrees(sb, e, run[i].durable, {})
      ensures P(e)
    {
      SameHomeIsSound(sb, run[i].durable, e);
    }
    forall k: nat | BeginsAt(sb, run, k) && P(run[k].durable)
      ensures KeepsP(sb, P, run[k].durable, run[k + 1].tx)
    {
      StoreKeepsHistory(sb, run[k].durable, run[k + 1].tx, rs);
    }
    RunsPreserve(sb, P, run, i, j);
    assert P(run[j].durable);
  }

  lemma SoundHasHistory(sb: Superblock, d: Image)
    requires Sound(sb, d) && HasLedger(sb)
    ensures HasHistory(sb, d)
  {}

  /** Step `i` starts operation `op`. */
  ghost predicate StartsOp(sb: Superblock, run: seq<State>, i: nat, op: Op) {
    BeginsAt(sb, run, i) && OpPlanned(sb, run[i].durable, op) && run[i + 1].tx == OpTx(op)
  }

  /** The object change and its record are one: the next idle state has both or neither. It has both if
      the COMMIT was synced, and neither if the COMMIT was never handed to the disk. */
  lemma ChangeAndRecord(sb: Superblock, run: seq<State>, i: nat, m: nat, op: Op)
    requires ServedRun(sb, run) && HasLedger(sb)
    requires i < m < |run| && StartsOp(sb, run, i, op) && Idle(run[m])
    requires forall k :: i < k < m ==> !BeginsAt(sb, run, k)
    ensures HasHistory(sb, run[m].durable)
    ensures HadNoEffect(sb, run[i].durable, run[m].durable, op) || TookEffect(sb, run[i].durable, run[m].durable, op)
    ensures (exists k :: i < k < m && CommitReturns(run, k)) ==> TookEffect(sb, run[i].durable, run[m].durable, op)
    ensures (forall k :: i < k < m ==> !SubmitsCommit(run, k)) ==> HadNoEffect(sb, run[i].durable, run[m].durable, op)
  {
    hide Run, BeginsAt, Sound, HomeAgrees, HasHistory, History, OpPlanned, OpTx, AfterImage, CommitReturns, SubmitsCommit;
    hide StoreRun;
    hide HistoryWith, Clean, HadNoEffect, TookEffect;
    BeginFacts(sb, run, i);
    StoreStaysSound(sb, run, i);
    CrashAtomicity(sb, run, i, m);
    var before, after := run[i].durable, run[m].durable;
    SoundHasHistory(sb, before);
    if HomeAgrees(sb, after, before, OpTx(op).ordered.Keys) {
      IsWithoutEffect(sb, before, after, op);
    }
    if HomeAgrees(sb, after, AfterImage(before, OpTx(op)), {}) {
      IsWithEffect(sb, before, after, op);
    }
  }

  /** Neither the change nor the record: home blocks and history are as before. */
  ghost predicate HadNoEffect(sb: Superblock, before: Image, after: Image, op: Op) {
    HomeAgrees(sb, after, before, OpTx(op).ordered.Keys) && History(sb, after) == History(sb, before)
  }

  /** Both the change and the record. */
  ghost predicate TookEffect(sb: Superblock, before: Image, after: Image, op: Op) {
    HomeAgrees(sb, after, AfterImage(before, OpTx(op)), {}) && History(sb, after) == HistoryWith(sb, before, op)
  }

  lemma IsWithoutEffect(sb: Superblock, before: Image, after: Image, op: Op)
    requires Sound(sb, before) && HasHistory(sb, before) && OpPlanned(sb, before, op)
    requires HomeAgrees(sb, after, before, OpTx(op).ordered.Keys)
    ensures HasHistory(sb, after) && HadNoEffect(sb, before, after, op)
  {
    hide Sound, HomeAgrees, HasHistory, History, OpPlanned, OpTx;
    OpUncommitted(sb, before, op, after);
  }

  lemma IsWithEffect(sb: Superblock, before: Image, after: Image, op: Op)
    requires Sound(sb, before) && HasHistory(sb, before) && OpPlanned(sb, before, op)
    requires HomeAgrees(sb, after, AfterImage(before, OpTx(op)), {})
    ensures HasHistory(sb, after) && TookEffect(sb, before, after, op)
  {
    hide Sound, HomeAgrees, HasHistory, History, OpPlanned, OpTx, AfterImage, HistoryWith;
    OpIsSound(sb, before, op);
    SameHomeIsSound(sb, AfterImage(before, OpTx(op)), after);
  }

  /** At most once: if a later transaction carries the same Request-ID, the earlier one had no effect.
      So of all transactions with one Request-ID only the last can have changed an object. */
  lemma AtMostOnce(sb: Superblock, run: seq<State>, i: nat, m: nat, j: nat, first: Op, second: Op)
    requires ServedRun(sb, run) && HasLedger(sb)
    requires i < m <= j < |run| && StartsOp(sb, run, i, first) && StartsOp(sb, run, j, second) && Idle(run[m])
    requires forall k :: i < k < m ==> !BeginsAt(sb, run, k)
    requires first.append.Some? && second.append.Some? && first.append.value.record.id == second.append.value.record.id
    ensures HadNoEffect(sb, run[i].durable, run[m].durable, first)
    ensures forall k :: i < k < m ==> !CommitReturns(run, k)
  {
    hide ServedRun, BeginsAt, Sound, HasHistory, History, CommitReturns, SubmitsCommit, OpPlanned, HadNoEffect, TookEffect;
    hide Known, Remembers, OpTx;
    BeginFacts(sb, run, j);
    ChangeAndRecord(sb, run, i, m, first);
    HistoryGrows(sb, run, m, j);
    if TookEffect(sb, run[i].durable, run[m].durable, first) {
      DoneIsKnown(sb, run[i].durable, run[m].durable, first, run[j].durable);
      NewId(sb, run[j].durable, second);
    }
  }

  lemma NewId(sb: Superblock, d: Image, op: Op)
    requires OpPlanned(sb, d, op) && op.append.Some?
    ensures !Known(History(sb, d), op.append.value.record.id)
  {
    hide ChangePlanned, AppendPlanned, Known, HasHistory, History;
  }

  lemma DoneIsKnown(sb: Superblock, before: Image, after: Image, op: Op, later: Image)
    requires TookEffect(sb, before, after, op) && op.append.Some? && Remembers(sb, later, History(sb, after))
    ensures Known(History(sb, later), op.append.value.record.id)
  {
    hide HomeAgrees, Sound, HasHistory, History, OpTx;
    var h := History(sb, before);
    assert History(sb, later)[|h|] == op.append.value.record;
  }

  /** Once `WriteCommit` has returned, the request is on record in every later idle state. */
  lemma CommittedIsRemembered(sb: Superblock, run: seq<State>, i: nat, c: nat, m: nat, j: nat, op: Op)
    requires ServedRun(sb, run) && HasLedger(sb)
    requires i < c < m <= j < |run| && StartsOp(sb, run, i, op) && Idle(run[m]) && Idle(run[j]) && CommitReturns(run, c)
    requires forall k :: i < k < m ==> !BeginsAt(sb, run, k)
    requires op.append.Some?
    ensures Known(History(sb, run[j].durable), op.append.value.record.id)
  {
    hide ServedRun, BeginsAt, Sound, HasHistory, History, CommitReturns, SubmitsCommit, OpPlanned, HadNoEffect, TookEffect;
    hide Known, Remembers, OpTx;
    ChangeAndRecord(sb, run, i, m, op);
    HistoryGrows(sb, run, m, j);
    DoneIsKnown(sb, run[i].durable, run[m].durable, op, run[j].durable);
  }

  // ---- Extending a run by one operation ----

  /** A run that starts one more operation of the store, or none, is still a run of the store. */
  lemma ServedRunExtends(sb: Superblock, a: seq<State>, b: seq<State>, tx: Transaction)
    requires ServedRun(sb, a) && Run(sb, b) && a <= b
    requires var s, t := a[|a| - 1], b[|b| - 1];
      t.started == s.started || (BegunOnce(s, t, tx) && StoreTx(sb, s.durable, tx))
    ensures ServedRun(sb, b)
  {
    hide Sound, StoreTx, Begin, Next, Init;
    forall k: nat | BeginsAt(sb, b, k) && Sound(sb, b[k].durable)
      ensures StoreTx(sb, b[k].durable, b[k + 1].tx)
    {
      if k + 1 < |a| {
        assert BeginsAt(sb, a, k);
      } else {
        OnlyBegin(sb, a, b, tx, k);
      }
    }
  }

  lemma OnlyBegin(sb: Superblock, a: seq<State>, b: seq<State>, tx: Transaction, k: nat)
    requires a != [] && Run(sb, b) && a <= b && |a| <= k + 1 && BeginsAt(sb, b, k)
    requires var s, t := a[|a| - 1], b[|b| - 1]; t.started == s.started || BegunOnce(s, t, tx)
    ensures b[k].durable == a[|a| - 1].durable && b[k + 1].tx == tx && b[|b| - 1].started != a[|a| - 1].started
  {
    hide Begin, Next, Init;
    StartedCounts(sb, b, |a| - 1, k);
    StartedCounts(sb, b, k + 1, |b| - 1);
    BeginCounts(sb, b, k);
    BeginFacts(sb, b, k);
  }
}
