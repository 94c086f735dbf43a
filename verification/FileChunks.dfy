/**
 Downloading a file chunk by chunk, each paid with an invoice of the host. Every database transaction is
 one step; requests and payments are tasks that run between them.
 */
module FileChunks {

  datatype Option<+T> = None | Some(value: T)

  const WORD: nat := 0x1_0000_0000_0000_0000

  type Uint64 = n: nat | n < 0x1_0000_0000_0000_0000

  const DAY: nat := 86_400_000_000_000

  datatype Chunk = Chunk(size: Uint64, hash: seq<nat>)

  datatype Metadata = Metadata(cost: Uint64, size: Uint64, manifest: seq<Chunk>)

  datatype ChunkState = Blank | RequestedChunk | HasInvoice | PayingInvoice | Paid | Downloaded

  datatype Record = Record(states: map<nat, ChunkState>, invoices: map<nat, string>, updated: map<nat, nat>)

  datatype Payment = Payment(idx: nat, invoice: string)

  /** The file, whether its owner sends it unasked, and the amount in milliatoms an invoice decodes to. */
  datatype Config = Config(meta: Metadata, isSentFile: bool, decode: string -> Option<int>)

  /** The stored download, and the tasks: requests to send, payments to begin, payments being made. */
  datatype State = State(record: Option<Record>, requests: multiset<nat>, due: multiset<Payment>,
                         paying: multiset<Payment>)

  datatype Event =
    | Start
    | Cancel
    | DownloadTurn(idx: nat, expired: bool, now: nat)
    | RequestSent(idx: nat, now: nat)
    | PayForChunk(idx: nat, hash: seq<nat>, invoice: string, now: nat)
    | BeginPayment(pay: Payment, now: nat)
    | EndPayment(pay: Payment, ok: bool, now: nat)
    | SaveChunk(idx: nat, now: nat)

  // ---------- Prices ----------

  /** What the host asks for a chunk at most; the product wraps at 64 bits. */
  function ChunkMAtoms(idx: nat, fm: Metadata): Uint64
    requires fm.size > 0
  {
    if idx >= |fm.manifest| then 0
    else
      var matoms := fm.cost * fm.manifest[idx].size % WORD * 1000 % WORD / fm.size;
      if matoms < 1000 then 1000 else matoms
  }

  /** A signed amount read as an unsigned one. */
  function Unsigned(m: int): int {
    if m < 0 then m + WORD else m
  }

  predicate ChunkIndexMatches(fm: Metadata, idx: nat, hash: seq<nat>) {
    idx < |fm.manifest| && fm.manifest[idx].hash == hash
  }

  // ---------- Steps ----------

  function StateOf(r: Record, idx: nat): ChunkState {
    if idx in r.states then r.states[idx] else Blank
  }

  function ReplaceState(r: Record, idx: nat, cs: ChunkState, now: nat): Record {
    r.(states := r.states[idx := cs], updated := r.updated[idx := now])
  }

  /** Stores an invoice for the chunk; the empty one clears what is there. */
  function ReplaceInvoice(r: Record, idx: nat, invoice: string, now: nat): Record {
    if invoice == "" then Record(r.states[idx := Blank], r.invoices - {idx}, r.updated[idx := now])
    else Record(r.states[idx := HasInvoice], r.invoices[idx := invoice], r.updated[idx := now])
  }

  /** Whether the invoice of a message is taken in place of the chunk's present one. */
  predicate Accepts(cfg: Config, s: State, e: Event): (b: bool)
    requires cfg.meta.size > 0
    ensures b ==> e.PayForChunk? && s.record.Some?
  {
    && e.PayForChunk? && s.record.Some?
    && cfg.decode(e.invoice).Some? && !cfg.isSentFile
    && ChunkIndexMatches(cfg.meta, e.idx, e.hash)
    && StateOf(s.record.value, e.idx) != Downloaded && StateOf(s.record.value, e.idx) != Paid
    && Unsigned(cfg.decode(e.invoice).value) <= ChunkMAtoms(e.idx, cfg.meta)
  }

  /** Whether the payment client is asked to pay. */
  predicate Pays(s: State, e: Event): (b: bool)
    ensures b ==> e.BeginPayment? && s.record.Some?
  {
    && e.BeginPayment? && e.pay in s.due && s.record.Some?
    && e.pay.idx in s.record.value.states && s.record.value.states[e.pay.idx] == HasInvoice
  }

  datatype Action = Nothing | Request | SendPayment(invoice: string)

  /** What a turn of the download loop does about a missing chunk. */
  function ActionFor(cfg: Config, r: Record, idx: nat, expired: bool, now: nat): Action {
    if idx >= |cfg.meta.manifest| then Nothing
    else match StateOf(r, idx)
      case Blank => Request
      case RequestedChunk => if (if idx in r.updated then r.updated[idx] else 0) < now - DAY then Request else Nothing
      case HasInvoice =>
        if idx !in r.invoices || cfg.decode(r.invoices[idx]).None? then Nothing
        else if expired then Request else SendPayment(r.invoices[idx])
      case _ => Nothing
  }

  function Step(cfg: Config, s: State, e: Event): State
    requires cfg.meta.size > 0
  {
    match e
    case Start => if s.record.Some? then s else s.(record := Some(Record(map[], map[], map[])))
    case Cancel => s.(record := None)
    case DownloadTurn(idx, expired, now) =>
      if s.record.None? then s
      else (match ActionFor(cfg, s.record.value, idx, expired, now)
            case Nothing => s
            case Request => s.(requests := s.requests + multiset{idx})
            case SendPayment(invoice) => s.(due := s.due + multiset{Payment(idx, invoice)}))
    case RequestSent(idx, now) =>
      if idx !in s.requests then s
      else State(if s.record.None? then None else Some(ReplaceState(s.record.value, idx, RequestedChunk, now)),
                 s.requests - multiset{idx}, s.due, s.paying)
    case PayForChunk(idx, _, invoice, now) =>
      if Accepts(cfg, s, e) then
        State(Some(ReplaceInvoice(s.record.value, idx, invoice, now)), s.requests,
              s.due + multiset{Payment(idx, invoice)}, s.paying)
      else s
    case BeginPayment(pay, now) =>
      if Pays(s, e) then
        State(Some(ReplaceState(s.record.value, pay.idx, PayingInvoice, now)), s.requests,
              s.due - multiset{pay}, s.paying + multiset{pay})
      else s.(due := s.due - multiset{pay})
    case EndPayment(pay, ok, now) =>
      if pay !in s.paying then s
      else
        var r := s.record;
        State(if r.None? then None
              else if ok then Some(ReplaceState(r.value, pay.idx, Paid, now))
              else Some(ReplaceInvoice(r.value, pay.idx, "", now)),
              s.requests, s.due, s.paying - multiset{pay})
    case SaveChunk(idx, now) =>
      if s.record.None? || idx >= |cfg.meta.manifest| then s
      else s.(record := Some(ReplaceState(s.record.value, idx, Downloaded, now)))
  }

  const NEW: State := State(None, multiset{}, multiset{}, multiset{})

  function After(cfg: Config, run: seq<Event>): State
    requires cfg.meta.size > 0
  {
    if run == [] then NEW else Step(cfg, After(cfg, run[..|run| - 1]), run[|run| - 1])
  }

  // ---------- Invoices and payments ----------

  predicate StoresInvoice(cfg: Config, s: State, e: Event, idx: nat)
    requires cfg.meta.size > 0
  {
    Accepts(cfg, s, e) && e.idx == idx && e.invoice != ""
  }

  predicate StartsPayment(s: State, e: Event, idx: nat) {
    Pays(s, e) && e.pay.idx == idx
  }

  /** How often an invoice was stored for the chunk. */
  function Invoices(cfg: Config, run: seq<Event>, idx: nat): nat
    requires cfg.meta.size > 0
  {
    if run == [] then 0
    else
      var before, e := run[..|run| - 1], run[|run| - 1];
      Invoices(cfg, before, idx) + if StoresInvoice(cfg, After(cfg, before), e, idx) then 1 else 0
  }

  /** How often a payment was started for the chunk. */
  function Payments(cfg: Config, run: seq<Event>, idx: nat): nat
    requires cfg.meta.size > 0
  {
    if run == [] then 0
    else
      var before, e := run[..|run| - 1], run[|run| - 1];
      Payments(cfg, before, idx) + if StartsPayment(After(cfg, before), e, idx) then 1 else 0
  }

  predicate Holds(s: State, idx: nat) {
    s.record.Some? && StateOf(s.record.value, idx) == HasInvoice
  }

  /** Every payment started used up an invoice stored, and one that waits has not been used. */
  lemma {:induction false} PaymentsWithinInvoices(cfg: Config, run: seq<Event>, idx: nat)
    requires cfg.meta.size > 0
    ensures Payments(cfg, run, idx) + (if Holds(After(cfg, run), idx) then 1 else 0) <= Invoices(cfg, run, idx)
  {
    if run != [] {
      PaymentsWithinInvoices(cfg, run[..|run| - 1], idx);
      HoldsAfter(cfg, After(cfg, run[..|run| - 1]), run[|run| - 1], idx);
    }
  }

  /** A chunk comes to have an invoice by one being stored, and no longer has it once paying starts. */
  lemma HoldsAfter(cfg: Config, s: State, e: Event, idx: nat)
    requires cfg.meta.size > 0
    ensures Holds(Step(cfg, s, e), idx) ==> StoresInvoice(cfg, s, e, idx) || (Holds(s, idx) && !StartsPayment(s, e, idx))
    ensures StartsPayment(s, e, idx) ==> Holds(s, idx) && !StoresInvoice(cfg, s, e, idx)
  {
    hide Accepts, ActionFor, ReplaceState, ReplaceInvoice;
    match e
    case RequestSent(i, now) => if s.record.Some? { StateReplaced(s.record.value, i, RequestedChunk, now, idx); }
    case PayForChunk(i, _, invoice, now) => if s.record.Some? { InvoiceReplaced(s.record.value, i, invoice, now, idx); }
    case BeginPayment(pay, now) => if s.record.Some? { StateReplaced(s.record.value, pay.idx, PayingInvoice, now, idx); }
    case EndPayment(pay, ok, now) =>
      if s.record.Some? {
        StateReplaced(s.record.value, pay.idx, Paid, now, idx);
        InvoiceReplaced(s.record.value, pay.idx, "", now, idx);
      }
    case SaveChunk(i, now) => if s.record.Some? { StateReplaced(s.record.value, i, Downloaded, now, idx); }
    case _ =>
  }

  lemma StateReplaced(r: Record, i: nat, cs: ChunkState, now: nat, idx: nat)
    ensures StateOf(ReplaceState(r, i, cs, now), idx) == if i == idx then cs else StateOf(r, idx)
  {}

  lemma InvoiceReplaced(r: Record, i: nat, invoice: string, now: nat, idx: nat)
    ensures StateOf(ReplaceInvoice(r, i, invoice, now), idx) ==
            if i != idx then StateOf(r, idx) else if invoice == "" then Blank else HasInvoice
  {}

  predicate Priced(cfg: Config, pay: Payment)
    requires cfg.meta.size > 0
  {
    && pay.idx < |cfg.meta.manifest| && cfg.decode(pay.invoice).Some?
    && Unsigned(cfg.decode(pay.invoice).value) <= ChunkMAtoms(pay.idx, cfg.meta)
  }

  /** The invoice of the payment was accepted for that chunk earlier in the run. */
  predicate WasAccepted(cfg: Config, run: seq<Event>, pay: Payment)
    requires cfg.meta.size > 0
  {
    exists k :: 0 <= k < |run| && Accepts(cfg, After(cfg, run[..k]), run[k]) &&
                run[k].idx == pay.idx && run[k].invoice == pay.invoice
  }

  lemma WasAcceptedStays(cfg: Config, run: seq<Event>, pay: Payment)
    requires cfg.meta.size > 0 && run != [] && WasAccepted(cfg, run[..|run| - 1], pay)
    ensures WasAccepted(cfg, run, pay)
  {
    var before := run[..|run| - 1];
    var k :| 0 <= k < |before| && Accepts(cfg, After(cfg, before[..k]), before[k]) &&
             before[k].idx == pay.idx && before[k].invoice == pay.invoice;
    assert before[..k] == run[..k];
  }

  /** Every invoice kept or to be paid was accepted for its chunk. */
  lemma {:induction false} KeptWasAccepted(cfg: Config, run: seq<Event>, pay: Payment)
    requires cfg.meta.size > 0
    requires Kept(After(cfg, run), pay)
    ensures WasAccepted(cfg, run, pay)
  {
    hide Accepts, Step, WasAccepted, Kept;
    NothingKept(cfg, pay);
    var before, e := run[..|run| - 1], run[|run| - 1];
    var s := After(cfg, before);
    KeptStep(cfg, s, e, pay);
    if AcceptsAs(cfg, s, e, pay) {
      JustAccepted(cfg, run, pay);
    } else {
      KeptWasAccepted(cfg, before, pay);
      WasAcceptedStays(cfg, run, pay);
    }
  }

  predicate Kept(s: State, pay: Payment) {
    pay in s.due || pay in s.paying || KeptInRecord(s, pay)
  }

  predicate KeptInRecord(s: State, pay: Payment) {
    s.record.Some? && pay.idx in s.record.value.invoices && s.record.value.invoices[pay.idx] == pay.invoice
  }

  predicate AcceptsAs(cfg: Config, s: State, e: Event, pay: Payment)
    requires cfg.meta.size > 0
  {
    Accepts(cfg, s, e) && e.idx == pay.idx && e.invoice == pay.invoice
  }

  lemma KeptStep(cfg: Config, s: State, e: Event, pay: Payment)
    requires cfg.meta.size > 0 && Kept(Step(cfg, s, e), pay)
    ensures Kept(s, pay) || AcceptsAs(cfg, s, e, pay)
  {
    hide Step, AcceptsAs, KeptInRecord;
    TasksStep(cfg, s, e, pay);
    RecordStep(cfg, s, e, pay);
  }

  lemma TasksStep(cfg: Config, s: State, e: Event, pay: Payment)
    requires cfg.meta.size > 0
    ensures var next := Step(cfg, s, e);
            pay in next.due || pay in next.paying ==>
              pay in s.due || pay in s.paying || KeptInRecord(s, pay) || AcceptsAs(cfg, s, e, pay)
  {
    hide Accepts, ActionFor, ReplaceState, ReplaceInvoice;
    if e.DownloadTurn? && s.record.Some? { ActionStored(cfg, s.record.value, e.idx, e.expired, e.now); }
  }

  lemma RecordStep(cfg: Config, s: State, e: Event, pay: Payment)
    requires cfg.meta.size > 0
    ensures KeptInRecord(Step(cfg, s, e), pay) ==> KeptInRecord(s, pay) || AcceptsAs(cfg, s, e, pay)
  {
    hide Accepts, ActionFor, ReplaceState, ReplaceInvoice;
    match e
    case RequestSent(i, now) => if s.record.Some? { InvoicesKept(s.record.value, i, RequestedChunk, now); }
    case PayForChunk(i, _, invoice, now) => if s.record.Some? { InvoicesReplaced(s.record.value, i, invoice, now, pay); }
    case BeginPayment(p, now) => if s.record.Some? { InvoicesKept(s.record.value, p.idx, PayingInvoice, now); }
    case EndPayment(p, ok, now) =>
      if s.record.Some? {
        InvoicesKept(s.record.value, p.idx, Paid, now);
        InvoicesReplaced(s.record.value, p.idx, "", now, pay);
      }
    case SaveChunk(i, now) => if s.record.Some? { InvoicesKept(s.record.value, i, Downloaded, now); }
    case _ =>
  }

  lemma InvoicesKept(r: Record, i: nat, cs: ChunkState, now: nat)
    ensures ReplaceState(r, i, cs, now).invoices == r.invoices
  {}

  lemma InvoicesReplaced(r: Record, i: nat, invoice: string, now: nat, pay: Payment)
    ensures var next := ReplaceInvoice(r, i, invoice, now).invoices;
            pay.idx in next && next[pay.idx] == pay.invoice ==>
              (i == pay.idx && invoice == pay.invoice) || (pay.idx in r.invoices && r.invoices[pay.idx] == pay.invoice)
    ensures invoice == "" ==> i !in ReplaceInvoice(r, i, invoice, now).invoices
  {}

  lemma ActionStored(cfg: Config, r: Record, idx: nat, expired: bool, now: nat)
    ensures var a := ActionFor(cfg, r, idx, expired, now);
            a.SendPayment? ==> idx in r.invoices && r.invoices[idx] == a.invoice
  {}

  lemma NothingKept(cfg: Config, pay: Payment)
    requires cfg.meta.size > 0
    ensures !Kept(After(cfg, []), pay)
  {}

  lemma JustAccepted(cfg: Config, run: seq<Event>, pay: Payment)
    requires cfg.meta.size > 0 && run != []
    requires var e := run[|run| - 1]; Accepts(cfg, After(cfg, run[..|run| - 1]), e) && e.idx == pay.idx && e.invoice == pay.invoice
    ensures WasAccepted(cfg, run, pay)
  {}

  /** A payment started is for an invoice the host sent for that chunk, at no more than the chunk's price. */
  lemma PaidWasPriced(cfg: Config, run: seq<Event>)
    requires cfg.meta.size > 0 && run != [] && Pays(After(cfg, run[..|run| - 1]), run[|run| - 1])
    ensures WasAccepted(cfg, run[..|run| - 1], run[|run| - 1].pay) && Priced(cfg, run[|run| - 1].pay)
  {
    hide ChunkMAtoms;
    KeptWasAccepted(cfg, run[..|run| - 1], run[|run| - 1].pay);
  }

  lemma AfterNext(cfg: Config, run: seq<Event>, i: nat)
    requires cfg.meta.size > 0 && i < |run|
    ensures After(cfg, run[..i + 1]) == Step(cfg, After(cfg, run[..i]), run[i])
  {
    assert run[..i + 1][..i] == run[..i];
  }

  /** Once a payment started, the chunk has no invoice to pay until another is stored. */
  lemma {:induction false} UsedUp(cfg: Config, run: seq<Event>, i: nat, n: nat, idx: nat)
    requires cfg.meta.size > 0 && i < n <= |run| && StartsPayment(After(cfg, run[..i]), run[i], idx)
    requires forall k :: i < k < n ==> !StoresInvoice(cfg, After(cfg, run[..k]), run[k], idx)
    ensures !Holds(After(cfg, run[..n]), idx)
  {
    hide After, Step, StartsPayment, StoresInvoice, Holds;
    AfterNext(cfg, run, n - 1);
    HoldsAfter(cfg, After(cfg, run[..n - 1]), run[n - 1], idx);
    if i < n - 1 { UsedUp(cfg, run, i, n - 1, idx); }
  }

  /** Between two payments started for a chunk an invoice was stored for it. */
  lemma InvoiceBetweenPayments(cfg: Config, run: seq<Event>, i: nat, j: nat, idx: nat)
    requires cfg.meta.size > 0 && i < j < |run|
    requires StartsPayment(After(cfg, run[..i]), run[i], idx) && StartsPayment(After(cfg, run[..j]), run[j], idx)
    ensures exists k :: i < k < j && StoresInvoice(cfg, After(cfg, run[..k]), run[k], idx)
  {
    hide After, StoresInvoice;
    if forall k :: i < k < j ==> !StoresInvoice(cfg, After(cfg, run[..k]), run[k], idx) {
      UsedUp(cfg, run, i, j, idx);
    }
  }

  /** Two invoices in a row are both paid: the first payment may still be under way. */
  lemma TwoPaymentsUnderWay(fm: Metadata, a: string, b: string, decode: string -> Option<int>) returns (run: seq<Event>)
    requires fm.size > 0 && fm.manifest != [] && a != "" && b != ""
    requires decode(a) == Some(1000) && decode(b) == Some(1000)
    ensures var cfg := Config(fm, false, decode);
            Payments(cfg, run, 0) == 2 && After(cfg, run).paying == multiset{Payment(0, a), Payment(0, b)}
  {
    var cfg := Config(fm, false, decode);
    var h := fm.manifest[0].hash;
    run := [Start, PayForChunk(0, h, a, 1), BeginPayment(Payment(0, a), 1),
            PayForChunk(0, h, b, 2), BeginPayment(Payment(0, b), 2)];
    hide After, Payments, Step, StartsPayment;
    AtStart(cfg, run);
    Started(cfg);
    AfterNext(cfg, run, 0);
    PaymentsNext(cfg, run, 0, 0);
    PaidAtOnce(cfg, run, 1, a);
    PaidAtOnce(cfg, run, 3, b);
    assert run[..5] == run;
  }

  lemma PaymentsNext(cfg: Config, run: seq<Event>, i: nat, idx: nat)
    requires cfg.meta.size > 0 && i < |run|
    ensures Payments(cfg, run[..i + 1], idx) ==
            Payments(cfg, run[..i], idx) + if StartsPayment(After(cfg, run[..i]), run[i], idx) then 1 else 0
  {
    assert run[..i + 1][..i] == run[..i];
  }

  lemma AtStart(cfg: Config, run: seq<Event>)
    requires cfg.meta.size > 0
    ensures After(cfg, run[..0]) == NEW && Payments(cfg, run[..0], 0) == 0
  {}

  lemma Started(cfg: Config)
    requires cfg.meta.size > 0
    ensures Step(cfg, NEW, Start) == NEW.(record := Some(Record(map[], map[], map[])))
    ensures !StartsPayment(NEW, Start, 0)
  {}

  /** No payment is due, and the first chunk is not paid for nor here. */
  predicate Ready(s: State) {
    && s.record.Some? && s.due == multiset{}
    && StateOf(s.record.value, 0) != Downloaded && StateOf(s.record.value, 0) != Paid
  }

  lemma PaidAtOnce(cfg: Config, run: seq<Event>, i: nat, invoice: string)
    requires cfg.meta.size > 0 && cfg.meta.manifest != [] && !cfg.isSentFile
    requires invoice != "" && cfg.decode(invoice) == Some(1000)
    requires i + 2 <= |run| && run[i].PayForChunk? && run[i].idx == 0 && run[i].invoice == invoice
    requires run[i].hash == cfg.meta.manifest[0].hash
    requires run[i + 1].BeginPayment? && run[i + 1].pay == Payment(0, invoice)
    requires Ready(After(cfg, run[..i]))
    ensures Ready(After(cfg, run[..i + 2]))
    ensures After(cfg, run[..i + 2]).paying == After(cfg, run[..i]).paying + multiset{Payment(0, invoice)}
    ensures Payments(cfg, run[..i + 2], 0) == Payments(cfg, run[..i], 0) + 1
  {
    hide After, Payments, Accepts;
    AcceptsPriced(cfg, After(cfg, run[..i]), run[i]);
    AfterNext(cfg, run, i);
    AfterNext(cfg, run, i + 1);
    PaymentsNext(cfg, run, i, 0);
    PaymentsNext(cfg, run, i + 1, 0);
  }

  /** An invoice of the least price is taken while the chunk is not paid for. */
  lemma AcceptsPriced(cfg: Config, s: State, e: Event)
    requires cfg.meta.size > 0 && e.PayForChunk? && s.record.Some? && !cfg.isSentFile
    requires ChunkIndexMatches(cfg.meta, e.idx, e.hash) && cfg.decode(e.invoice) == Some(1000)
    requires StateOf(s.record.value, e.idx) != Downloaded && StateOf(s.record.value, e.idx) != Paid
    ensures Accepts(cfg, s, e)
  {}

  // ---------- What each step does to a chunk ----------

  /** The record after a step that concerns one chunk: its state and invoice, with all other chunks as before. */
  ghost predicate Sets(r: Record, r': Record, idx: nat, cs: ChunkState, invoice: Option<string>, now: nat) {
    && idx in r'.states && r'.states[idx] == cs && idx in r'.updated && r'.updated[idx] == now
    && (idx in r'.invoices <==> invoice.Some?) && (invoice.Some? ==> r'.invoices[idx] == invoice.value)
    && forall other: nat :: other != idx ==>
         && StateOf(r', other) == StateOf(r, other) && InvoiceOf(r', other) == InvoiceOf(r, other)
         && (other in r'.updated <==> other in r.updated) && (other in r.updated ==> r'.updated[other] == r.updated[other])
  }

  function InvoiceOf(r: Record, idx: nat): Option<string> {
    if idx in r.invoices then Some(r.invoices[idx]) else None
  }

  /** An invoice is taken from the host of a paid file, for a chunk by its hash, not had and not paid, at its price at most. */
  lemma InvoiceTaken(cfg: Config, s: State, idx: nat, hash: seq<nat>, invoice: string, now: nat)
    requires cfg.meta.size > 0
    ensures var next, amount := Step(cfg, s, PayForChunk(idx, hash, invoice, now)), cfg.decode(invoice);
            if s.record.Some? && !cfg.isSentFile && amount.Some? && idx < |cfg.meta.manifest| &&
               cfg.meta.manifest[idx].hash == hash && StateOf(s.record.value, idx) !in {Downloaded, Paid} &&
               (if amount.value < 0 then amount.value + 0x1_0000_0000_0000_0000 else amount.value) <= ChunkMAtoms(idx, cfg.meta)
            then
              && next.record.Some? && next == s.(record := next.record, due := s.due + multiset{Payment(idx, invoice)})
              && Sets(s.record.value, next.record.value, idx, if invoice == "" then Blank else HasInvoice,
                      if invoice == "" then None else Some(invoice), now)
            else next == s
  {
    hide ChunkMAtoms;
  }

  /** A payment due begins if the chunk has an invoice; it is due no longer in either case. */
  lemma PaymentBegins(cfg: Config, s: State, pay: Payment, now: nat)
    requires cfg.meta.size > 0 && pay in s.due
    ensures var next := Step(cfg, s, BeginPayment(pay, now));
            if s.record.Some? && StateOf(s.record.value, pay.idx) == HasInvoice then
              && next.record.Some? && next.due == s.due - multiset{pay} && next.paying == s.paying + multiset{pay}
              && next.requests == s.requests
              && Sets(s.record.value, next.record.value, pay.idx, PayingInvoice, InvoiceOf(s.record.value, pay.idx), now)
            else next == s.(due := s.due - multiset{pay})
  {}

  /** A payment that failed leaves the chunk blank, without an invoice; one that succeeded leaves it paid, with it. */
  lemma PaymentEnds(cfg: Config, s: State, pay: Payment, ok: bool, now: nat)
    requires cfg.meta.size > 0 && pay in s.paying
    ensures var next := Step(cfg, s, EndPayment(pay, ok, now));
            && next == s.(record := next.record, paying := s.paying - multiset{pay})
            && (next.record.Some? <==> s.record.Some?)
            && (s.record.Some? ==>
                  if ok then Sets(s.record.value, next.record.value, pay.idx, Paid, InvoiceOf(s.record.value, pay.idx), now)
                  else Sets(s.record.value, next.record.value, pay.idx, Blank, None, now))
  {}

  lemma RequestAndChunkCome(cfg: Config, s: State, idx: nat, now: nat)
    requires cfg.meta.size > 0 && s.record.Some? && idx in s.requests && idx < |cfg.meta.manifest|
    ensures var next := Step(cfg, s, RequestSent(idx, now));
            && next.record.Some? && next == s.(record := next.record, requests := s.requests - multiset{idx})
            && Sets(s.record.value, next.record.value, idx, RequestedChunk, InvoiceOf(s.record.value, idx), now)
    ensures var next := Step(cfg, s, SaveChunk(idx, now));
            && next.record.Some? && next == s.(record := next.record)
            && Sets(s.record.value, next.record.value, idx, Downloaded, InvoiceOf(s.record.value, idx), now)
  {}

  /**
   A turn of the download loop asks for a chunk never asked for, or asked for more than a day ago, or whose
   invoice has expired; it has an invoice paid that has not; it leaves the rest alone.
   */
  lemma TurnDoes(cfg: Config, s: State, idx: nat, expired: bool, now: nat)
    requires cfg.meta.size > 0 && s.record.Some? && idx < |cfg.meta.manifest|
    ensures var next, r := Step(cfg, s, DownloadTurn(idx, expired, now)), s.record.value;
            var asked, usable := if idx in r.updated then r.updated[idx] else 0,
                                 idx in r.invoices && cfg.decode(r.invoices[idx]).Some?;
            if StateOf(r, idx) == Blank || (StateOf(r, idx) == RequestedChunk && asked + 86_400_000_000_000 < now) ||
               (StateOf(r, idx) == HasInvoice && usable && expired)
            then next == s.(requests := s.requests + multiset{idx})
            else if StateOf(r, idx) == HasInvoice && usable then
              next == s.(due := s.due + multiset{Payment(idx, r.invoices[idx])})
            else next == s
  {}

  /** After a payment failed, the next turn asks for the chunk again. */
  lemma FailedIsAskedAgain(cfg: Config, s: State, pay: Payment, now: nat, expired: bool, later: nat)
    requires cfg.meta.size > 0 && s.record.Some? && pay in s.paying && pay.idx < |cfg.meta.manifest|
    ensures var failed := Step(cfg, s, EndPayment(pay, false, now));
            Step(cfg, failed, DownloadTurn(pay.idx, expired, later)) == failed.(requests := failed.requests + multiset{pay.idx})
  {
    hide Step;
    PaymentEnds(cfg, s, pay, false, now);
    TurnDoes(cfg, Step(cfg, s, EndPayment(pay, false, now)), pay.idx, expired, later);
  }

  /** The one step that gives a chunk a state. */
  predicate Causes(cfg: Config, s: State, e: Event, idx: nat, cs: ChunkState)
    requires cfg.meta.size > 0
  {
    match cs
    case Blank => false
    case RequestedChunk => e.RequestSent? && e.idx == idx && idx in s.requests
    case HasInvoice => StoresInvoice(cfg, s, e, idx)
    case PayingInvoice => StartsPayment(s, e, idx)
    case Paid => e.EndPayment? && e.ok && e.pay.idx == idx && e.pay in s.paying
    case Downloaded => e.SaveChunk? && e.idx == idx
  }

  /** After the step the chunk has a state that the step gave it, or that it had. */
  predicate KeptOrCaused(cfg: Config, s: State, e: Event, idx: nat)
    requires cfg.meta.size > 0 && Step(cfg, s, e).record.Some?
  {
    var cs := StateOf(Step(cfg, s, e).record.value, idx);
    cs != Blank ==> Causes(cfg, s, e, idx, cs) || (s.record.Some? && StateOf(s.record.value, idx) == cs)
  }

  lemma StateKept(cfg: Config, s: State, e: Event, idx: nat)
    requires cfg.meta.size > 0 && Step(cfg, s, e).record.Some?
    ensures KeptOrCaused(cfg, s, e, idx)
  {
    hide Step, KeptOrCaused;
    if e.PayForChunk? || e.EndPayment? { InvoiceStepKept(cfg, s, e, idx); } else { OtherStepKept(cfg, s, e, idx); }
  }

  lemma InvoiceStepKept(cfg: Config, s: State, e: Event, idx: nat)
    requires cfg.meta.size > 0 && Step(cfg, s, e).record.Some? && (e.PayForChunk? || e.EndPayment?)
    ensures KeptOrCaused(cfg, s, e, idx)
  {
    hide Accepts, ReplaceState, ReplaceInvoice, StateOf;
    if s.record.Some? {
      var i, now := if e.PayForChunk? then e.idx else e.pay.idx, e.now;
      InvoiceReplaced(s.record.value, i, if e.PayForChunk? then e.invoice else "", now, idx);
      StateReplaced(s.record.value, i, Paid, now, idx);
    }
  }

  lemma OtherStepKept(cfg: Config, s: State, e: Event, idx: nat)
    requires cfg.meta.size > 0 && Step(cfg, s, e).record.Some? && !e.PayForChunk? && !e.EndPayment?
    ensures KeptOrCaused(cfg, s, e, idx)
  {
    hide Accepts, ActionFor, ReplaceState, ReplaceInvoice, StateOf;
    match e
    case RequestSent(i, now) => if s.record.Some? { StateReplaced(s.record.value, i, RequestedChunk, now, idx); }
    case BeginPayment(pay, now) => if s.record.Some? { StateReplaced(s.record.value, pay.idx, PayingInvoice, now, idx); }
    case SaveChunk(i, now) => if s.record.Some? { StateReplaced(s.record.value, i, Downloaded, now, idx); }
    case Start => NewIsBlank(idx);
    case _ =>
  }

  lemma NewIsBlank(idx: nat)
    ensures StateOf(Record(map[], map[], map[]), idx) == Blank
  {}

  /** A chunk's state was given to it by the step that alone gives it. */
  lemma {:induction false} StateHasCause(cfg: Config, run: seq<Event>, idx: nat) returns (k: nat)
    requires cfg.meta.size > 0 && After(cfg, run).record.Some? && StateOf(After(cfg, run).record.value, idx) != Blank
    ensures k < |run| && Causes(cfg, After(cfg, run[..k]), run[k], idx, StateOf(After(cfg, run).record.value, idx))
  {
    hide Step, Causes, StateOf;
    var n := |run| - 1;
    NothingAtStart(cfg, run);
    StateKept(cfg, After(cfg, run[..n]), run[n], idx);
    if Causes(cfg, After(cfg, run[..n]), run[n], idx, StateOf(After(cfg, run).record.value, idx)) {
      k := n;
    } else {
      k := StateHasCause(cfg, run[..n], idx);
      assert run[..n][..k] == run[..k];
    }
  }

  lemma NothingAtStart(cfg: Config, run: seq<Event>)
    requires cfg.meta.size > 0 && After(cfg, run).record.Some?
    ensures run != []
  {}

  lemma PayingStep(cfg: Config, s: State, e: Event, pay: Payment)
    requires cfg.meta.size > 0 && pay in Step(cfg, s, e).paying
    ensures pay in s.paying || (Pays(s, e) && e.pay == pay)
  {
    hide Accepts, ActionFor, ReplaceState, ReplaceInvoice;
  }

  /** A payment under way was started by the step that begins it. */
  lemma {:induction false} PayingWasStarted(cfg: Config, run: seq<Event>, pay: Payment) returns (j: nat)
    requires cfg.meta.size > 0 && pay in After(cfg, run).paying
    ensures j < |run| && Pays(After(cfg, run[..j]), run[j]) && run[j].pay == pay
  {
    hide Step, Pays;
    var n := |run| - 1;
    PayingStep(cfg, After(cfg, run[..n]), run[n], pay);
    if Pays(After(cfg, run[..n]), run[n]) && run[n].pay == pay {
      j := n;
    } else {
      j := PayingWasStarted(cfg, run[..n], pay);
      assert run[..n][..j] == run[..j];
    }
  }

  /** A chunk that is paid had a payment started for it that ended well. */
  lemma PaidWasPaid(cfg: Config, run: seq<Event>, idx: nat) returns (j: nat, k: nat)
    requires cfg.meta.size > 0 && After(cfg, run).record.Some? && StateOf(After(cfg, run).record.value, idx) == Paid
    ensures j < k < |run| && StartsPayment(After(cfg, run[..j]), run[j], idx)
    ensures run[k].EndPayment? && run[k].ok && run[k].pay == run[j].pay && run[k].pay in After(cfg, run[..k]).paying
  {
    k := StateHasCause(cfg, run, idx);
    j := PayingWasStarted(cfg, run[..k], run[k].pay);
    assert run[..k][..j] == run[..j];
  }

  // ---------- The price of a file ----------

  function TotalMAtoms(fm: Metadata, n: nat): nat
    requires fm.size > 0 && n <= |fm.manifest|
  {
    if n == 0 then 0 else TotalMAtoms(fm, n - 1) + ChunkMAtoms(n - 1, fm)
  }

  function TotalSize(fm: Metadata, n: nat): nat
    requires n <= |fm.manifest|
  {
    if n == 0 then 0 else TotalSize(fm, n - 1) + fm.manifest[n - 1].size
  }

  lemma Division(a: nat, d: nat)
    requires d > 0
    ensures d * (a / d) <= a < d * (a / d) + d
  {}

  lemma MultiplesOrdered(d: nat, p: nat, q: nat)
    requires d * p < d * q
    ensures p < q
  {}

  lemma MultiplesAdd(d: nat, p: nat, q: nat)
    ensures d * p + d * q == d * (p + q)
  {}

  lemma DivisionsAdd(a: nat, b: nat, d: nat)
    requires d > 0
    ensures a / d + b / d <= (a + b) / d
  {
    var p, q, r := a / d, b / d, (a + b) / d;
    Division(a, d);
    Division(b, d);
    Division(a + b, d);
    MultiplesAdd(d, p, q);
    MultiplesAdd(d, r, 1);
    MultiplesOrdered(d, p + q, r + 1);
  }

  lemma DivisionGrows(a: nat, b: nat, d: nat)
    requires d > 0 && a <= b
    ensures a / d <= b / d
  {
    DivisionsAdd(a, b - a, d);
  }

  /** The price of a share: rounded down, and at least an atom. */
  predicate IsPrice(price: nat, cost: nat, size: nat) {
    price >= 1000 && cost < size * price + size && (price == 1000 || size * price <= cost)
  }

  lemma AtLeastAnAtom(cost: nat, size: nat)
    requires size > 0
    ensures IsPrice(if cost / size < 1000 then 1000 else cost / size, cost, size)
  {
    Division(cost, size);
    if cost / size < 1000 { MultiplesOfAtLeast(size, cost / size, 1000); }
  }

  lemma MultiplesOfAtLeast(d: nat, p: nat, q: nat)
    requires p <= q
    ensures d * p <= d * q
  {}

  lemma Unwrapped(n: nat)
    requires n * 1000 < WORD
    ensures n % WORD * 1000 % WORD == n * 1000
  {}

  /** What the file's cost comes to for a chunk, in milliatoms times the size of the file. */
  function CostShare(idx: nat, fm: Metadata): int
    requires idx < |fm.manifest|
  {
    fm.cost * fm.manifest[idx].size * 1000
  }

  /** A chunk costs its share of the file's cost, if that fits the 64 bits of the product. */
  lemma ChunkPriceIs(idx: nat, fm: Metadata)
    requires fm.size > 0 && idx < |fm.manifest| && 0 <= CostShare(idx, fm) < WORD
    ensures IsPrice(ChunkMAtoms(idx, fm), CostShare(idx, fm), fm.size)
  {
    hide IsPrice;
    var product: nat := fm.cost * fm.manifest[idx].size;
    Unwrapped(product);
    AtLeastAnAtom(product * 1000, fm.size);
  }

  /** What a part of the file costs, in milliatoms, in proportion to its size. */
  function Share(fm: Metadata, size: nat): int
    requires fm.size > 0
  {
    fm.cost * size * 1000 / fm.size
  }

  lemma SharesAdd(fm: Metadata, x: nat, y: nat)
    requires fm.size > 0
    ensures Share(fm, x) + Share(fm, y) <= Share(fm, x + y)
  {
    Distributes(fm.cost, x, y);
    DivisionsAdd(fm.cost * x * 1000, fm.cost * y * 1000, fm.size);
  }

  lemma ShareOfNothing(fm: Metadata)
    requires fm.size > 0
    ensures Share(fm, 0) == 0
  {}

  lemma Distributes(c: nat, x: nat, y: nat)
    ensures c * x * 1000 + c * y * 1000 == c * (x + y) * 1000
  {}

  lemma Wraps(n: nat)
    ensures n % WORD <= n
  {}

  lemma ChunkMAtomsBound(idx: nat, fm: Metadata)
    requires fm.size > 0 && idx < |fm.manifest|
    ensures ChunkMAtoms(idx, fm) <= Share(fm, fm.manifest[idx].size) + 1000
  {
    var product: nat := fm.cost * fm.manifest[idx].size;
    Wraps(product);
    Wraps(product % WORD * 1000);
    DivisionGrows(product % WORD * 1000 % WORD, product * 1000, fm.size);
  }

  /** The first n chunks cost at most their share of the file's cost and an atom each. */
  lemma {:induction false} PriceOfChunks(fm: Metadata, n: nat)
    requires fm.size > 0 && n <= |fm.manifest|
    ensures TotalMAtoms(fm, n) <= Share(fm, TotalSize(fm, n)) + 1000 * n
  {
    hide ChunkMAtoms, Share;
    ShareOfNothing(fm);
    if n > 0 {
      PriceOfChunks(fm, n - 1);
      ChunkMAtomsBound(n - 1, fm);
      SharesAdd(fm, TotalSize(fm, n - 1), fm.manifest[n - 1].size);
      assert TotalSize(fm, n) == TotalSize(fm, n - 1) + fm.manifest[n - 1].size;
    }
  }

  /** A file whose chunks make it up costs at most what it is offered for, and an atom for each chunk. */
  lemma PriceOfFile(fm: Metadata)
    requires fm.size > 0 && TotalSize(fm, |fm.manifest|) == fm.size
    ensures TotalMAtoms(fm, |fm.manifest|) <= fm.cost * 1000 + 1000 * |fm.manifest|
  {
    PriceOfChunks(fm, |fm.manifest|);
    ExactDivision(fm.cost, fm.size);
  }

  lemma ExactDivision(c: nat, d: nat)
    requires d > 0
    ensures c * d * 1000 / d == c * 1000
  {
    var q := c * d * 1000 / d;
    assert c * d * 1000 == d * (c * 1000);
    Division(d * (c * 1000), d);
    MultiplesAdd(d, q, 1);
    MultiplesOrdered(d, c * 1000, q + 1);
    MultiplesAdd(d, c * 1000, 1);
    MultiplesOrdered(d, q, c * 1000 + 1);
  }

  // ---------- The client ----------

  /** A turn that reports an error ends the loop. */
  predicate TurnFails(cfg: Config, s: State, idx: nat) {
    || s.record.None? || idx >= |cfg.meta.manifest|
    || (StateOf(s.record.value, idx) == HasInvoice &&
        (idx !in s.record.value.invoices || cfg.decode(s.record.value.invoices[idx]).None?))
  }

  /** The turns of the download loop over the missing chunks. */
  function Turns(cfg: Config, s: State, missing: seq<nat>, expired: string -> bool, now: nat): State
    requires cfg.meta.size > 0
    decreases |missing|
  {
    if missing == [] || TurnFails(cfg, s, missing[0]) then s
    else Turns(cfg, Step(cfg, s, Turn(s, missing[0], expired, now)), missing[1..], expired, now)
  }

  function Turn(s: State, idx: nat, expired: string -> bool, now: nat): Event
    requires s.record.Some?
  {
    var invoices := s.record.value.invoices;
    DownloadTurn(idx, idx in invoices && expired(invoices[idx]), now)
  }

  /** A missing chunk that the loop asks for: never asked for, not for a day, or with an expired invoice. */
  predicate AsksFor(r: Record, idx: nat, expired: string -> bool, now: nat) {
    || StateOf(r, idx) == Blank
    || (StateOf(r, idx) == RequestedChunk && (if idx in r.updated then r.updated[idx] else 0) + 86_400_000_000_000 < now)
    || (StateOf(r, idx) == HasInvoice && idx in r.invoices && expired(r.invoices[idx]))
  }

  /** An invoice that is still good. */
  predicate Payable(r: Record, idx: nat, expired: string -> bool) {
    StateOf(r, idx) == HasInvoice && idx in r.invoices && !expired(r.invoices[idx])
  }

  predicate Usable(cfg: Config, r: Record, idx: nat) {
    && idx < |cfg.meta.manifest|
    && (StateOf(r, idx) == HasInvoice ==> idx in r.invoices && cfg.decode(r.invoices[idx]).Some?)
  }

  /** How often a chunk is asked for, and how often each payment is due, beyond what was before. */
  ghost predicate Adds(s: State, next: State, times: nat, idx: nat, expired: string -> bool, now: nat)
    requires s.record.Some?
  {
    var r := s.record.value;
    && next.record == s.record && next.paying == s.paying
    && next.requests[idx] == s.requests[idx] + (if AsksFor(r, idx, expired, now) then times else 0)
    && (idx in r.invoices ==>
          var pay := Payment(idx, r.invoices[idx]);
          next.due[pay] == s.due[pay] + if Payable(r, idx, expired) then times else 0)
  }

  lemma TurnAdds(cfg: Config, s: State, m: nat, expired: string -> bool, now: nat, idx: nat)
    requires cfg.meta.size > 0 && s.record.Some? && Usable(cfg, s.record.value, m)
    ensures Adds(s, Step(cfg, s, Turn(s, m, expired, now)), if m == idx then 1 else 0, idx, expired, now)
  {
    hide Step;
    TurnDoes(cfg, s, m, Turn(s, m, expired, now).expired, now);
  }

  /** Unless a turn fails, the loop asks for exactly these chunks, and has paid exactly the other ones with an invoice. */
  lemma {:induction false} LoopDoes(cfg: Config, s: State, missing: seq<nat>, expired: string -> bool, now: nat, idx: nat)
    requires cfg.meta.size > 0 && s.record.Some? && forall m :: m in missing ==> Usable(cfg, s.record.value, m)
    ensures Adds(s, Turns(cfg, s, missing, expired, now), multiset(missing)[idx], idx, expired, now)
    decreases |missing|
  {
    if missing != [] {
      hide Step, AsksFor, Payable;
      var m := missing[0];
      assert Usable(cfg, s.record.value, m);
      assert missing == [m] + missing[1..];
      TurnAdds(cfg, s, m, expired, now, idx);
      LoopDoes(cfg, Step(cfg, s, Turn(s, m, expired, now)), missing[1..], expired, now, idx);
    }
  }

  class Download {
    const cfg: Config
    var record: Option<Record>
    var requests: multiset<nat>
    var due: multiset<Payment>
    var paying: multiset<Payment>

    constructor (cfg: Config)
      ensures this.cfg == cfg && Now() == NEW
    {
      this.cfg := cfg;
      record, requests, due, paying := None, multiset{}, multiset{}, multiset{};
    }

    function Now(): State
      reads this
    {
      State(record, requests, due, paying)
    }

    /** Takes the invoice of a message for its chunk, and means to pay it. */
    method HandleFTPayForChunk(idx: nat, hash: seq<nat>, invoice: string, now: nat) returns (ok: bool)
      requires cfg.meta.size > 0
      modifies this`record, this`due
      ensures Now() == Step(cfg, old(Now()), PayForChunk(idx, hash, invoice, now))
      ensures ok == Accepts(cfg, old(Now()), PayForChunk(idx, hash, invoice, now))
    {
      var inv := cfg.decode(invoice);
      if inv.None? || record.None? || cfg.isSentFile { return false; }
      if !ChunkIndexMatches(cfg.meta, idx, hash) { return false; }
      var fd := record.value;
      if StateOf(fd, idx) == Downloaded || StateOf(fd, idx) == Paid { return false; }
      if Unsigned(inv.value) > ChunkMAtoms(idx, cfg.meta) { return false; }
      record := Some(ReplaceInvoice(fd, idx, invoice, now));
      due := due + multiset{Payment(idx, invoice)};
      return true;
    }

    /** The first transaction of a payment; the invoice is paid when it succeeds. */
    method BeginPayment(pay: Payment, now: nat) returns (pays: bool)
      requires cfg.meta.size > 0 && pay in due
      modifies this`record, this`due, this`paying
      ensures Now() == Step(cfg, old(Now()), Event.BeginPayment(pay, now))
      ensures pays == Pays(old(Now()), Event.BeginPayment(pay, now))
    {
      due := due - multiset{pay};
      if record.None? { return false; }
      var fd := record.value;
      if pay.idx !in fd.states || fd.states[pay.idx] != HasInvoice { return false; }
      record := Some(ReplaceState(fd, pay.idx, PayingInvoice, now));
      paying := paying + multiset{pay};
      return true;
    }

    /** The second one, with the outcome of the payment. */
    method EndPayment(pay: Payment, ok: bool, now: nat)
      requires cfg.meta.size > 0 && pay in paying
      modifies this`record, this`paying
      ensures Now() == Step(cfg, old(Now()), Event.EndPayment(pay, ok, now))
    {
      paying := paying - multiset{pay};
      if record.None? { return; }
      if ok {
        record := Some(ReplaceState(record.value, pay.idx, Paid, now));
      } else {
        record := Some(ReplaceInvoice(record.value, pay.idx, "", now));
      }
    }

    /** Records a request that was sent. */
    method RequestSent(idx: nat, now: nat)
      requires cfg.meta.size > 0 && idx in requests
      modifies this`record, this`requests
      ensures Now() == Step(cfg, old(Now()), Event.RequestSent(idx, now))
    {
      requests := requests - multiset{idx};
      if record.None? { return; }
      record := Some(ReplaceState(record.value, idx, RequestedChunk, now));
    }

    method SaveChunk(idx: nat, now: nat)
      requires cfg.meta.size > 0
      modifies this`record
      ensures Now() == Step(cfg, old(Now()), Event.SaveChunk(idx, now))
    {
      if record.None? || idx >= |cfg.meta.manifest| { return; }
      record := Some(ReplaceState(record.value, idx, Downloaded, now));
    }

    /** Decides for every missing chunk what to do about it. */
    method DownloadChunks(missing: seq<nat>, expired: string -> bool, now: nat)
      requires cfg.meta.size > 0
      modifies this`requests, this`due
      ensures Now() == Turns(cfg, old(Now()), missing, expired, now)
    {
      hide Step, TurnFails;
      ghost var start := Now();
      for i := 0 to |missing|
        invariant record == old(record) && paying == old(paying)
        invariant Turns(cfg, start, missing, expired, now) == Turns(cfg, Now(), missing[i..], expired, now)
      {
        var idx := missing[i];
        assert missing[i..][1..] == missing[i + 1..];
        var ok := TakeTurn(idx, expired, now);
        if !ok { return; }
      }
    }

    method TakeTurn(idx: nat, expired: string -> bool, now: nat) returns (ok: bool)
      requires cfg.meta.size > 0
      modifies this`requests, this`due
      ensures ok == !TurnFails(cfg, old(Now()), idx)
      ensures Now() == if ok then Step(cfg, old(Now()), Turn(old(Now()), idx, expired, now)) else old(Now())
    {
      if record.None? || idx >= |cfg.meta.manifest| { return false; }
      var fd := record.value;
      match StateOf(fd, idx) {
      case Blank =>
        requests := requests + multiset{idx};
      case RequestedChunk =>
        var chunkUpdtTime := 0;
        if idx in fd.updated { chunkUpdtTime := fd.updated[idx]; }
        if chunkUpdtTime < now - DAY { requests := requests + multiset{idx}; }
      case HasInvoice =>
        if idx !in fd.invoices || cfg.decode(fd.invoices[idx]).None? { return false; }
        if expired(fd.invoices[idx]) {
          requests := requests + multiset{idx};
        } else {
          due := due + multiset{Payment(idx, fd.invoices[idx])};
        }
      case _ =>
      }
      return true;
    }
  }
}
