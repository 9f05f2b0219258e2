// The two sides of a live payment session: the receiver, which trusts only the
// chain, and the payer, which records before it notifies.
module Session {
  import opened Base
  import opened Log
  import opened World
  import opened LedgerStore
  import opened Protocol
  import opened Reconcile
  import opened Convergence
  import opened PolicyGate
  import opened Pay

  datatype Deposit = Deposit(txid: Txid, sats: nat)

  /** The receiver's surroundings: the wallet's addresses, what the chain source lists as
      paying an address, the answers to the reconcile pass after a booked receipt, whether
      the wire takes the address of an index, and whether it ends by the peer going away
      and not by an error. */
  datatype Chain = Chain(
    address: nat -> Option<string>,
    deposits: string -> Option<seq<Deposit>>,
    oracle: Oracle,
    calls: nat,
    delivers: nat -> bool,
    closes: bool)

  function TxidsOf(ds: seq<Deposit>): set<Txid> {
    set d | d in ds :: d.txid
  }

  function FindDeposit(ds: seq<Deposit>, t: Txid): (d: Option<Deposit>)
    ensures d.Some? ==> exists i :: 0 <= i < |ds| && ds[i] == d.value && d.value.txid == t
                                    && forall j :: 0 <= j < i ==> ds[j].txid != t
    ensures d.None? ==> forall x :: x in ds ==> x.txid != t
  {
    if ds == [] then None else if ds[0].txid == t then Some(ds[0]) else FindDeposit(ds[1..], t)
  }

  // --- the effects of a receive session -------------------------------------------

  function IssueEffects(w: World, index: nat, address: string): seq<Effect> {
    [Append(AddressIssued(NextSeq(w.log), index)), Reply(address, index)]
  }

  /** Booking the deposit the chain lists, then one reconcile pass. */
  function ReceiptEffects(w: World, d: Deposit, index: nat, c: Chain): seq<Effect> {
    var fs := ReceiveEffects(w.log, d.txid, d.sats, index);
    fs + PassWithin(Run(w, fs), c.oracle, c.calls)
  }

  function NotifyEffects(w: World, issued: Option<nat>, t: Txid, c: Chain): seq<Effect> {
    if issued.None? || c.address(issued.value).None? then []
    else match c.deposits(c.address(issued.value).value)
      case None => []
      case Some(ds) =>
        [Fetched(TxidsOf(ds), false)] +
        match FindDeposit(ds, t)
        case None => []
        case Some(d) => ReceiptEffects(w, d, issued.value, c)
  }

  /** Answering an address request; whether the session can go on after it. */
  function AskEffects(w: World, next: nat, c: Chain): seq<Effect> {
    if c.address(next).None? then []
    else
      var fs := IssueEffects(w, next, c.address(next).value);
      if c.delivers(next) then fs else fs[..1]
  }

  predicate Answered(next: nat, c: Chain) {
    c.address(next).Some? && c.delivers(next)
  }

  /** Whether a session ends without an error. */
  function EndsWell(next: nat, inbox: seq<Message>, c: Chain): bool
    decreases |inbox|
  {
    if inbox == [] then c.closes
    else match inbox[0]
      case AddrRequest(_) => Answered(next, c) && EndsWell(next + 1, inbox[1..], c)
      case Notify(_, _) => true
      case _ => EndsWell(next, inbox[1..], c)
  }

  /** A session that stands at address index next, having issued `issued`. */
  function SessionEffects(w: World, next: nat, issued: Option<nat>, inbox: seq<Message>, c: Chain): seq<Effect>
    decreases |inbox|
  {
    if inbox == [] then []
    else match inbox[0]
      case AddrRequest(_) =>
        var fs := AskEffects(w, next, c);
        if Answered(next, c) then fs + SessionEffects(Run(w, fs), next + 1, Some(next), inbox[1..], c) else fs
      case Notify(t, _) => NotifyEffects(w, issued, t, c)
      case _ => SessionEffects(w, next, issued, inbox[1..], c)
  }

  // --- the session itself -----------------------------------------------------------

  class Receiver {
    const address: nat -> Option<string>
    var nextIndex: nat

    constructor (address: nat -> Option<string>, start: nat)
      ensures this.address == address && nextIndex == start
    {
      this.address, nextIndex := address, start;
    }

    /** Answers an address request with a fresh address; other messages need no reply. */
    method Handle(m: Message) returns (r: Result<Option<Message>>)
      modifies this
      ensures m.AddrRequest? && address(old(nextIndex)).Some? ==>
        r == Ok(Some(AddrResponse(address(old(nextIndex)).value, old(nextIndex)))) && nextIndex == old(nextIndex) + 1
      ensures m.AddrRequest? && address(old(nextIndex)).None? ==> r == Err && nextIndex == old(nextIndex)
      ensures !m.AddrRequest? ==> r == Ok(None) && nextIndex == old(nextIndex)
    {
      if m.AddrRequest? {
        var index := nextIndex;
        var a := address(index);
        if a.None? {
          return Err;
        }
        nextIndex := nextIndex + 1;
        return Ok(Some(AddrResponse(a.value, index)));
      }
      return Ok(None);
    }
  }

  /** The receive side, run over the messages the peer sends before it goes away. */
  method RunReceiver(led: Ledger, rx: Receiver, inbox: seq<Message>, c: Chain) returns (r: Result<()>)
    requires led.Valid() && rx.address == c.address
    modifies led, rx
    ensures led.Valid()
    ensures led.trace == old(led.trace) + SessionEffects(old(led.world), old(rx.nextIndex), None, inbox, c)
    ensures led.world == Run(old(led.world), SessionEffects(old(led.world), old(rx.nextIndex), None, inbox, c))
    ensures r.Ok? <==> EndsWell(old(rx.nextIndex), inbox, c)
  {
    ghost var start := rx.nextIndex;
    ghost var w0, t0, plan := led.world, led.trace, SessionEffects(led.world, rx.nextIndex, None, inbox, c);
    ghost var done: seq<Effect> := [];
    var issuedIndex: Option<nat> := None;
    var issuedAddress: Option<string> := None;
    for i := 0 to |inbox|
      invariant led.Valid()
      invariant led.trace == t0 + done && led.world == Run(w0, done)
      invariant issuedIndex.Some? <==> issuedAddress.Some?
      invariant issuedIndex.Some? ==> c.address(issuedIndex.value) == issuedAddress
      invariant plan == done + SessionEffects(led.world, rx.nextIndex, issuedIndex, inbox[i..], c)
      invariant EndsWell(start, inbox, c) == EndsWell(rx.nextIndex, inbox[i..], c)
    {
      Unfold(led.world, rx.nextIndex, issuedIndex, inbox, i, c);
      match inbox[i]
      case AddrRequest(sats) =>
        ghost var next, step := rx.nextIndex, AskEffects(led.world, rx.nextIndex, c);
        ghost var rest := SessionEffects(Run(led.world, step), next + 1, Some(next), inbox[i + 1..], c);
        var reply := AnswerRequest(led, rx, sats, c);
        RunMore(w0, t0, done, step);
        if reply.None? {
          return Err;
        }
        issuedAddress, issuedIndex := Some(reply.value.0), Some(reply.value.1);
        Assoc(done, step, rest);
        done := done + step;
      case Notify(t, claimed) =>
        var index := if issuedIndex.Some? then issuedIndex.value else 0;
        ghost var step := NotifyEffects(led.world, issuedIndex, t, c);
        if issuedAddress.Some? {
          AnswerNotify(led, index, issuedAddress.value, t, c);
        }
        RunMore(w0, t0, done, step);
        return Ok(());
      case Chat(_) =>
      case AddrResponse(_, _) =>
    }
    assert inbox[|inbox|..] == [];
    RunMore(w0, t0, done, []);
    return if c.closes then Ok(()) else Err;
  }

  lemma Unfold(w: World, next: nat, issued: Option<nat>, inbox: seq<Message>, i: nat, c: Chain)
    requires i < |inbox|
    ensures SessionEffects(w, next, issued, inbox[i..], c)
            == if inbox[i].AddrRequest? then
                 var fs := AskEffects(w, next, c);
                 if Answered(next, c) then fs + SessionEffects(Run(w, fs), next + 1, Some(next), inbox[i + 1..], c)
                 else fs
               else if inbox[i].Notify? then NotifyEffects(w, issued, inbox[i].txid, c)
               else SessionEffects(w, next, issued, inbox[i + 1..], c)
    ensures EndsWell(next, inbox[i..], c)
            == if inbox[i].AddrRequest? then Answered(next, c) && EndsWell(next + 1, inbox[i + 1..], c)
               else inbox[i].Notify? || EndsWell(next, inbox[i + 1..], c)
  {
    assert inbox[i..][0] == inbox[i] && inbox[i..][1..] == inbox[i + 1..];
  }

  /** Answers an address request, if an address can be derived and goes out. */
  method AnswerRequest(led: Ledger, rx: Receiver, sats: nat, c: Chain) returns (r: Option<(string, nat)>)
    requires led.Valid() && rx.address == c.address
    modifies led, rx
    ensures led.Valid()
    ensures led.trace == old(led.trace) + AskEffects(old(led.world), old(rx.nextIndex), c)
    ensures led.world == Run(old(led.world), AskEffects(old(led.world), old(rx.nextIndex), c))
    ensures r.Some? <==> Answered(old(rx.nextIndex), c)
    ensures r.Some? ==> r.value == (c.address(old(rx.nextIndex)).value, old(rx.nextIndex))
                        && rx.nextIndex == old(rx.nextIndex) + 1
  {
    var reply := rx.Handle(AddrRequest(sats));
    if reply.Err? {
      return None;
    }
    var address, index := reply.value.value.address, reply.value.value.index;
    var sent := IssueAddress(led, address, index, c);
    return if sent then Some((address, index)) else None;
  }

  /** The issuance is on disk before the address leaves, if the wire takes it. */
  method IssueAddress(led: Ledger, address: string, index: nat, c: Chain) returns (sent: bool)
    requires led.Valid() && c.address(index) == Some(address)
    modifies led
    ensures led.Valid()
    ensures led.trace == old(led.trace) + AskEffects(old(led.world), index, c)
    ensures led.world == Run(old(led.world), AskEffects(old(led.world), index, c))
    ensures sent == c.delivers(index)
  {
    ghost var w0, fs := led.world, IssueEffects(led.world, index, address);
    RunSnoc(w0, [], fs[0]);
    RunSnoc(w0, [fs[0]], fs[1]);
    assert fs == [fs[0]] + [fs[1]];
    led.Append(AddressIssued(NextSeq(led.entries), index));
    assert fs[..1] == [fs[0]];
    if !c.delivers(index) {
      return false;
    }
    led.Act(Reply(address, index));
    return true;
  }

  /** A Notify is only a hint: what is booked is what the chain lists. */
  method AnswerNotify(led: Ledger, index: nat, address: string, t: Txid, c: Chain)
    requires led.Valid() && c.address(index) == Some(address)
    modifies led
    ensures led.Valid()
    ensures led.trace == old(led.trace) + NotifyEffects(old(led.world), Some(index), t, c)
    ensures led.world == Run(old(led.world), NotifyEffects(old(led.world), Some(index), t, c))
  {
    var listed := c.deposits(address);
    if listed.None? {
      return;
    }
    ghost var w0, t0, first := led.world, led.trace, Fetched(TxidsOf(listed.value), false);
    led.Act(first);
    RunSnoc(w0, [], first);
    assert led.trace == t0 + [first] && led.world == Run(w0, [first]);
    var d := FindDeposit(listed.value, t);
    if d.None? {
      assert NotifyEffects(w0, Some(index), t, c) == [first];
      return;
    }
    ghost var rest := ReceiptEffects(led.world, d.value, index, c);
    assert NotifyEffects(w0, Some(index), t, c) == [first] + rest;
    RunMore(w0, t0, [first], rest);
    BookReceipt(led, d.value, index, c);
  }

  method BookReceipt(led: Ledger, d: Deposit, index: nat, c: Chain)
    requires led.Valid()
    modifies led
    ensures led.Valid()
    ensures led.trace == old(led.trace) + ReceiptEffects(old(led.world), d, index, c)
    ensures led.world == Run(old(led.world), ReceiptEffects(old(led.world), d, index, c))
  {
    ghost var w0, t0, book := led.world, led.trace, ReceiveEffects(led.entries, d.txid, d.sats, index);
    var _ := led.RecordReceived(d.txid, d.sats, index);
    RunMore(w0, t0, book, PassWithin(led.world, c.oracle, c.calls));
    var _, _ := ReconcilePass(led, c.oracle, c.calls);
  }

  // --- what a session can and cannot book ----------------------------------------------

  lemma PassAppendsUpdates(w: World, o: Oracle, calls: nat)
    ensures forall f :: f in PassWithin(w, o, calls) ==> !f.Reply? && (f.Append? ==> f.entry.StatusUpdate?)
  {
    var ts := PendingOf(w.log);
    LoopAppendsUpdates(w, ts, o);
    LoopAppendsUpdates(w, Within(ts, calls), o);
    var w1 := Run(w, LoopEffects(w, ts, o));
    SweepOnlyRemoves(w1.log, o.listing(w1.sidecars.Keys));
  }

  /** The chain lists t as paying exactly sats to the address of index. */
  ghost predicate ChainPays(c: Chain, t: Txid, sats: nat, index: nat) {
    && c.address(index).Some?
    && c.deposits(c.address(index).value).Some?
    && Deposit(t, sats) in c.deposits(c.address(index).value).value
  }

  /** A receipt is one the chain lists, pending, with the chain's own amount; an address
      that is sent is the wallet's for that index. */
  ghost predicate FromChain(c: Chain, f: Effect) {
    && (f.Append? && f.entry.Received? ==>
          f.entry.status == Pending && ChainPays(c, f.entry.txid, f.entry.sats, f.entry.index))
    && (f.Reply? ==> c.address(f.index) == Some(f.address))
  }

  lemma NotifyBooksChainAmounts(w: World, issued: Option<nat>, t: Txid, c: Chain)
    ensures forall f :: f in NotifyEffects(w, issued, t, c) ==> FromChain(c, f)
  {
    if issued.Some? && c.address(issued.value).Some? && c.deposits(c.address(issued.value).value).Some? {
      var d := FindDeposit(c.deposits(c.address(issued.value).value).value, t);
      if d.Some? {
        assert d.value == Deposit(d.value.txid, d.value.sats);
        PassAppendsUpdates(Run(w, ReceiveEffects(w.log, d.value.txid, d.value.sats, issued.value)), c.oracle, c.calls);
      }
    }
  }

  /** Whatever the peer sends, a session books only what the chain lists, at the chain's
      amounts, and sends only the wallet's own addresses. */
  lemma {:induction false} SessionBooksChainAmounts(w: World, next: nat, issued: Option<nat>,
                                                    inbox: seq<Message>, c: Chain)
    ensures forall f :: f in SessionEffects(w, next, issued, inbox, c) ==> FromChain(c, f)
    decreases |inbox|
  {
    if inbox != [] {
      match inbox[0]
      case AddrRequest(_) =>
        var fs := AskEffects(w, next, c);
        SessionBooksChainAmounts(Run(w, fs), next + 1, Some(next), inbox[1..], c);
        assert forall f :: f in fs ==> FromChain(c, f);
      case Notify(t, _) => NotifyBooksChainAmounts(w, issued, t, c);
      case _ => SessionBooksChainAmounts(w, next, issued, inbox[1..], c);
    }
  }

  // --- what a session does book ----------------------------------------------------------

  /** How many addresses are asked for. */
  function Asked(inbox: seq<Message>): nat {
    if inbox == [] then 0 else (if inbox[0].AddrRequest? then 1 else 0) + Asked(inbox[1..])
  }

  /** The first n indices from next on can be derived and go out on the wire. */
  ghost predicate AllAnswered(next: nat, n: nat, c: Chain) {
    forall k: nat :: next <= k < next + n ==> c.address(k).Some? && c.delivers(k)
  }

  /** The addresses that effects send, with their indices, in order. */
  function Replies(fs: seq<Effect>): seq<(string, nat)> {
    if fs == [] then [] else (if fs[0].Reply? then [(fs[0].address, fs[0].index)] else []) + Replies(fs[1..])
  }

  lemma {:induction false} RepliesConcat(fs: seq<Effect>, gs: seq<Effect>)
    ensures Replies(fs + gs) == Replies(fs) + Replies(gs)
  {
    if fs == [] {
      assert fs + gs == gs;
    } else {
      assert (fs + gs)[1..] == fs[1..] + gs && (fs + gs)[0] == fs[0];
      RepliesConcat(fs[1..], gs);
      Assoc(if fs[0].Reply? then [(fs[0].address, fs[0].index)] else [], Replies(fs[1..]), Replies(gs));
    }
  }

  /** n addresses, one for each index from next on. */
  ghost function Addresses(next: nat, n: nat, c: Chain): seq<(string, nat)>
    requires AllAnswered(next, n, c)
  {
    seq(n, i requires 0 <= i < n => (c.address(next + i).value, next + i))
  }

  /** Nothing happens but addresses being issued and sent. */
  ghost predicate OnlyIssues(fs: seq<Effect>) {
    forall f :: f in fs ==> f.Reply? || (f.Append? && f.entry.AddressIssued?)
  }

  lemma AnsweredEffects(w: World, next: nat, c: Chain)
    requires Answered(next, c)
    ensures var fs := AskEffects(w, next, c);
            OnlyIssues(fs) && Replies(fs) == [(c.address(next).value, next)]
  {
    var f, g := Append(AddressIssued(NextSeq(w.log), next)), Reply(c.address(next).value, next);
    assert AskEffects(w, next, c) == [f] + [g];
    RepliesConcat([f], [g]);
    assert [f][1..] == [] && [g][1..] == [];
  }

  /** What a session does from some message on, given where it stands. */
  type Continuation = (World, nat, Option<nat>) -> seq<Effect>

  /** The session over messages without a notification, followed by what comes then. */
  function UpTo(w: World, next: nat, issued: Option<nat>, before: seq<Message>, c: Chain, onward: Continuation)
      : seq<Effect>
    decreases |before|
  {
    if before == [] then onward(w, next, issued)
    else if !before[0].AddrRequest? then UpTo(w, next, issued, before[1..], c, onward)
    else
      var fs := AskEffects(w, next, c);
      if Answered(next, c) then fs + UpTo(Run(w, fs), next + 1, Some(next), before[1..], c, onward) else fs
  }

  /** The session over the messages of rest. */
  function Onward(rest: seq<Message>, c: Chain): Continuation {
    (w: World, next: nat, issued: Option<nat>) => SessionEffects(w, next, issued, rest, c)
  }

  lemma {:induction false} SessionIsUpTo(w: World, next: nat, issued: Option<nat>, before: seq<Message>,
                                         rest: seq<Message>, c: Chain)
    requires forall m :: m in before ==> !m.Notify?
    ensures SessionEffects(w, next, issued, before + rest, c) == UpTo(w, next, issued, before, c, Onward(rest, c))
    decreases |before|
  {
    if before == [] {
      assert before + rest == rest;
    } else {
      assert before[0] in before && forall m :: m in before[1..] ==> m in before;
      assert (before + rest)[0] == before[0] && (before + rest)[1..] == before[1..] + rest;
      if !before[0].AddrRequest? {
        SessionIsUpTo(w, next, issued, before[1..], rest, c);
      } else if Answered(next, c) {
        SessionIsUpTo(Run(w, AskEffects(w, next, c)), next + 1, Some(next), before[1..], rest, c);
      }
    }
  }

  /** fs sends the addresses of n requests, and appends nothing but their issuance. */
  ghost predicate Answers(fs: seq<Effect>, next: nat, n: nat, c: Chain) {
    AllAnswered(next, n, c) && OnlyIssues(fs) && Replies(fs) == Addresses(next, n, c)
  }

  lemma OneMoreAnswer(first: seq<Effect>, more: seq<Effect>, next: nat, n: nat, c: Chain)
    requires Answered(next, c) && OnlyIssues(first) && Replies(first) == [(c.address(next).value, next)]
    requires Answers(more, next + 1, n, c)
    ensures Answers(first + more, next, n + 1, c)
  {
    RepliesConcat(first, more);
    assert AllAnswered(next, n + 1, c);
    assert Addresses(next, n + 1, c) == [(c.address(next).value, next)] + Addresses(next + 1, n, c);
  }

  /** When a session ends without an error: every request before the first notification was
      answered, and there is a notification or the peer just went away. */
  lemma {:induction false} EndsWellExactly(next: nat, before: seq<Message>, rest: seq<Message>, c: Chain)
    requires (forall m :: m in before ==> !m.Notify?) && (rest == [] || rest[0].Notify?)
    ensures EndsWell(next, before + rest, c) <==> AllAnswered(next, Asked(before), c) && (rest != [] || c.closes)
    decreases |before|
  {
    if before == [] {
      assert before + rest == rest;
    } else {
      assert before[0] in before && forall m :: m in before[1..] ==> m in before;
      assert (before + rest)[0] == before[0] && (before + rest)[1..] == before[1..] + rest;
      if before[0].AddrRequest? {
        EndsWellExactly(next + 1, before[1..], rest, c);
        OneMoreAnswered(next, Asked(before[1..]), c);
      } else {
        EndsWellExactly(next, before[1..], rest, c);
      }
    }
  }

  lemma OneMoreAnswered(next: nat, n: nat, c: Chain)
    ensures AllAnswered(next, n + 1, c) <==> Answered(next, c) && AllAnswered(next + 1, n, c)
  {}

  /** The index that was issued last after n more requests. */
  function LastOf(next: nat, n: nat, issued: Option<nat>): Option<nat> {
    if n > 0 then Some(next + n - 1) else issued
  }

  /** Every address request is answered, and nothing else happens; then the session stands
      at the index after them. */
  lemma {:induction false} RequestsAreAnswered(w: World, next: nat, issued: Option<nat>, before: seq<Message>,
                                               c: Chain, onward: Continuation)
      returns (fs: seq<Effect>, w': World)
    requires AllAnswered(next, Asked(before), c)
    ensures w' == Run(w, fs) && Answers(fs, next, Asked(before), c)
    ensures UpTo(w, next, issued, before, c, onward)
            == fs + onward(w', next + Asked(before), LastOf(next, Asked(before), issued))
    decreases |before|
  {
    if before == [] {
      fs, w' := [], w;
    } else if before[0].AddrRequest? {
      var first, n := AskEffects(w, next, c), Asked(before[1..]);
      var more;
      more, w' := RequestsAreAnswered(Run(w, first), next + 1, Some(next), before[1..], c, onward);
      fs := first + more;
      AnsweredEffects(w, next, c);
      OneMoreAnswer(first, more, next, n, c);
      RunConcat(w, first, more);
      assert LastOf(next, n + 1, issued) == LastOf(next + 1, n, Some(next)) && next + 1 + n == next + (n + 1);
      Assoc(first, more, onward(w', next + (n + 1), LastOf(next, n + 1, issued)));
    } else {
      fs, w' := RequestsAreAnswered(w, next, issued, before[1..], c, onward);
    }
  }

  /** A session sends exactly one address for each request before the first notification,
      each under the next index. */
  lemma SessionSendsAddresses(w: World, next: nat, before: seq<Message>, c: Chain)
    requires (forall m :: m in before ==> !m.Notify?) && AllAnswered(next, Asked(before), c)
    ensures Replies(SessionEffects(w, next, None, before, c)) == Addresses(next, Asked(before), c)
  {
    var onward := Onward([], c);
    SessionIsUpTo(w, next, None, before, [], c);
    var fs, w' := RequestsAreAnswered(w, next, None, before, c, onward);
    assert before + [] == before && fs + [] == fs;
  }

  /** No payment was put on the books from log to log'. */
  ghost predicate NoPayments(log: seq<Entry>, log': seq<Entry>) {
    log <= log' && forall i :: |log| <= i < |log'| ==> !log'[i].Payment()
  }

  /** Exactly one payment was put on the books: a pending receipt of t. */
  ghost predicate OneReceipt(log: seq<Entry>, log': seq<Entry>, t: Txid, sats: nat, index: nat) {
    && log <= log'
    && exists i :: |log| <= i < |log'|
         && log'[i] == Received(log'[i].no, t, sats, index, Pending)
         && forall j :: |log| <= j < |log'| && j != i ==> !log'[j].Payment()
  }

  lemma {:induction false} QuietRun(w: World, fs: seq<Effect>)
    requires forall f :: f in fs && f.Append? ==> !f.entry.Payment()
    ensures NoPayments(w.log, Run(w, fs).log)
    ensures forall t :: HasTxid(Run(w, fs).log, t) <==> HasTxid(w.log, t)
    decreases |fs|
  {
    if fs != [] {
      if fs[0].Append? {
        Snoc(w.log, fs[0].entry);
      }
      QuietRun(Apply(w, fs[0]), fs[1..]);
    }
  }

  /** t is on the books: as it was, or with exactly one new payment, a receipt of sats. */
  ghost predicate BooksDeposit(log: seq<Entry>, log': seq<Entry>, t: Txid, sats: nat, index: nat) {
    HasTxid(log', t) && if HasTxid(log, t) then NoPayments(log, log') else OneReceipt(log, log', t, sats, index)
  }

  lemma ReceivedOnce(w: World, d: Deposit, index: nat)
    ensures BooksDeposit(w.log, Run(w, ReceiveEffects(w.log, d.txid, d.sats, index)).log, d.txid, d.sats, index)
  {
    if !HasTxid(w.log, d.txid) {
      var e := Received(NextSeq(w.log), d.txid, d.sats, index, Pending);
      RunSnoc(w, [], Append(e));
      Snoc(w.log, e);
      assert (w.log + [e])[|w.log|] == e;
    }
  }

  /** Booking a deposit and reconciling leaves its transaction on the books. */
  lemma ReceiptIsBooked(w: World, d: Deposit, index: nat, c: Chain)
    ensures BooksDeposit(w.log, Run(w, ReceiptEffects(w, d, index, c)).log, d.txid, d.sats, index)
  {
    var fs := ReceiveEffects(w.log, d.txid, d.sats, index);
    var w1 := Run(w, fs);
    var pass := PassWithin(w1, c.oracle, c.calls);
    ReceivedOnce(w, d, index);
    PassAppendsUpdates(w1, c.oracle, c.calls);
    QuietRun(w1, pass);
    RunConcat(w, fs, pass);
    QuietAfter(w.log, w1.log, Run(w1, pass).log, d.txid, d.sats, index);
  }

  /** If t was new to w and the chain source answers for the whole work queue, t has the
      status of its confirmations. */
  ghost predicate Reconciled(w: World, log': seq<Entry>, t: Txid, c: Chain) {
    !HasTxid(w.log, t) && t !in w.sidecars && |PendingOf(w.log)| < c.calls ==>
      LatestStatus(log', t) == Some(FromConfirmations(c.oracle.confs(t)))
  }

  /** Issuing addresses changes neither the work queue nor the sidecars. */
  lemma {:induction false} IssuesKeepQueue(w: World, fs: seq<Effect>)
    requires OnlyIssues(fs)
    ensures PendingOf(Run(w, fs).log) == PendingOf(w.log) && Run(w, fs).sidecars == w.sidecars
    decreases |fs|
  {
    if fs != [] {
      assert fs[0] in fs && forall f :: f in fs[1..] ==> f in fs;
      if fs[0].Append? {
        IssueKeepsQueue(w.log, fs[0].entry);
      }
      IssuesKeepQueue(Apply(w, fs[0]), fs[1..]);
    }
  }

  lemma IssueKeepsQueue(log: seq<Entry>, e: Entry)
    requires e.AddressIssued?
    ensures PendingOf(log + [e]) == PendingOf(log)
  {
    Snoc(log, e);
    assert Firsts(log + [e]) == Firsts(log);
    SameOpen(Firsts(log), log, log + [e]);
  }

  lemma ReceiptIsReconciled(w: World, d: Deposit, index: nat, c: Chain)
    ensures Reconciled(w, Run(w, ReceiptEffects(w, d, index, c)).log, d.txid, c)
  {
    if !HasTxid(w.log, d.txid) && d.txid !in w.sidecars && |PendingOf(w.log)| < c.calls {
      NewReceiptIsReconciled(w, d, index, c);
    }
  }

  lemma NewReceiptIsReconciled(w: World, d: Deposit, index: nat, c: Chain)
    requires !HasTxid(w.log, d.txid) && d.txid !in w.sidecars && |PendingOf(w.log)| < c.calls
    ensures Reconciled(w, Run(w, ReceiptEffects(w, d, index, c)).log, d.txid, c)
  {
    var e := Received(NextSeq(w.log), d.txid, d.sats, index, Pending);
    var w1 := Apply(w, Append(e));
    RunSnoc(w, [], Append(e));
    assert ReceiveEffects(w.log, d.txid, d.sats, index) == [] + [Append(e)];
    RunConcat(w, [Append(e)], PassWithin(w1, c.oracle, c.calls));
    OneMorePending(w.log, e);
    PendingIsReconciled(w, w1, e, c);
  }

  lemma PendingIsReconciled(w: World, w1: World, e: Entry, c: Chain)
    requires e.Received? && e.status == Pending && w1 == w.(log := w.log + [e])
    requires e.txid !in w.sidecars && |PendingOf(w1.log)| <= c.calls
    ensures LatestStatus(Run(w1, PassWithin(w1, c.oracle, c.calls)).log, e.txid)
            == Some(FromConfirmations(c.oracle.confs(e.txid)))
  {
    Snoc(w.log, e);
    PassReachesTargets(w1, c.oracle);
  }

  lemma QuietAfter(log: seq<Entry>, log1: seq<Entry>, log': seq<Entry>, t: Txid, sats: nat, index: nat)
    requires BooksDeposit(log, log1, t, sats, index) && NoPayments(log1, log') && HasTxid(log', t)
    ensures BooksDeposit(log, log', t, sats, index)
  {
    assert forall j :: 0 <= j < |log1| ==> log'[j] == log1[j];
    if !HasTxid(log, t) {
      var i :| |log| <= i < |log1| && log1[i] == Received(log1[i].no, t, sats, index, Pending)
               && forall j :: |log| <= j < |log1| && j != i ==> !log1[j].Payment();
      assert log'[i] == Received(log'[i].no, t, sats, index, Pending);
    }
  }

  /** A notified deposit is booked. If the chain lists t for the last address that the session
      sent, t is on the books afterwards; if it was not before, exactly one payment is new: a
      receipt of the first amount that the chain lists for t, under that address's index; and
      it has the status of its confirmations, if the chain source answers for the work queue. */
  lemma NotifiedDepositIsBooked(w: World, next: nat, before: seq<Message>, t: Txid, claimed: nat,
                                after: seq<Message>, c: Chain, ds: seq<Deposit>, k: nat)
    requires (forall m :: m in before ==> !m.Notify?) && Asked(before) > 0 && AllAnswered(next, Asked(before), c)
    requires c.deposits(c.address(next + Asked(before) - 1).value) == Some(ds)
    requires k < |ds| && ds[k].txid == t && forall j :: 0 <= j < k ==> ds[j].txid != t
    ensures var log' := Run(w, SessionEffects(w, next, None, before + ([Notify(t, claimed)] + after), c)).log;
            && BooksDeposit(w.log, log', t, ds[k].sats, next + Asked(before) - 1)
            && Reconciled(w, log', t, c)
  {
    FirstIsTheOne(ds, t, k);
    var w1 := NotifyIsReached(w, next, before, [Notify(t, claimed)] + after, c, ds, ds[k]);
    var log' := Run(w, SessionEffects(w, next, None, before + ([Notify(t, claimed)] + after), c)).log;
    QuietBefore(w.log, w1.log, log', t, ds[k].sats, next + Asked(before) - 1);
  }

  /** From w to w' no payment was booked, and queue and sidecars stayed as they were. */
  ghost predicate SameBooks(w: World, w': World) {
    && NoPayments(w.log, w'.log) && (forall t :: HasTxid(w'.log, t) <==> HasTxid(w.log, t))
    && PendingOf(w'.log) == PendingOf(w.log) && w'.sidecars == w.sidecars
  }

  lemma IssuesKeepBooks(w: World, fs: seq<Effect>)
    requires OnlyIssues(fs)
    ensures SameBooks(w, Run(w, fs))
  {
    QuietRun(w, fs);
    IssuesKeepQueue(w, fs);
  }

  /** A session that gets to a notification has by then only issued addresses, and goes on
      to book the deposit. */
  lemma NotifyIsReached(w: World, next: nat, before: seq<Message>, rest: seq<Message>, c: Chain,
                        ds: seq<Deposit>, d: Deposit)
      returns (w': World)
    requires (forall m :: m in before ==> !m.Notify?) && Asked(before) > 0 && AllAnswered(next, Asked(before), c)
    requires rest != [] && rest[0].Notify? && FindDeposit(ds, rest[0].txid) == Some(d)
    requires c.deposits(c.address(next + Asked(before) - 1).value) == Some(ds)
    ensures SameBooks(w, w')
    ensures var log' := Run(w, SessionEffects(w, next, None, before + rest, c)).log;
            BooksDeposit(w'.log, log', d.txid, d.sats, next + Asked(before) - 1) && Reconciled(w', log', d.txid, c)
  {
    SessionIsUpTo(w, next, None, before, rest, c);
    w' := NotifyIsReachedUpTo(w, next, before, rest, c, ds, d, SessionEffects(w, next, None, before + rest, c));
  }

  lemma NotifyIsReachedUpTo(w: World, next: nat, before: seq<Message>, rest: seq<Message>, c: Chain,
                            ds: seq<Deposit>, d: Deposit, all: seq<Effect>)
      returns (w': World)
    requires all == UpTo(w, next, None, before, c, Onward(rest, c))
    requires Asked(before) > 0 && AllAnswered(next, Asked(before), c)
    requires rest != [] && rest[0].Notify? && FindDeposit(ds, rest[0].txid) == Some(d)
    requires c.deposits(c.address(next + Asked(before) - 1).value) == Some(ds)
    ensures SameBooks(w, w')
    ensures var log' := Run(w, all).log;
            BooksDeposit(w'.log, log', d.txid, d.sats, next + Asked(before) - 1) && Reconciled(w', log', d.txid, c)
  {
    var fs;
    var n, onward := Asked(before), Onward(rest, c);
    fs, w' := RequestsAreAnswered(w, next, None, before, c, onward);
    assert LastOf(next, n, None) == Some(next + n - 1);
    NotifyRuns(w, fs, all, next + n, next + n - 1, rest, c, ds, d);
  }

  lemma NotifyRuns(w0: World, fs: seq<Effect>, all: seq<Effect>, next: nat, index: nat, inbox: seq<Message>, c: Chain,
                   ds: seq<Deposit>, d: Deposit)
    requires OnlyIssues(fs) && inbox != [] && inbox[0].Notify? && c.address(index).Some?
    requires c.deposits(c.address(index).value) == Some(ds) && FindDeposit(ds, inbox[0].txid) == Some(d)
    requires all == fs + Onward(inbox, c)(Run(w0, fs), next, Some(index))
    ensures var w, log' := Run(w0, fs), Run(w0, all).log;
            SameBooks(w0, w) && BooksDeposit(w.log, log', d.txid, d.sats, index) && Reconciled(w, log', d.txid, c)
  {
    var w := Run(w0, fs);
    IssuesKeepBooks(w0, fs);
    OnwardFromNotify(w, next, index, inbox, c, ds, d);
    ReceiptIsBooked(w, d, index, c);
    ReceiptIsReconciled(w, d, index, c);
    FetchRuns(w0, fs, Fetched(TxidsOf(ds), false), ReceiptEffects(w, d, index, c));
  }

  lemma OnwardFromNotify(w: World, next: nat, index: nat, inbox: seq<Message>, c: Chain, ds: seq<Deposit>, d: Deposit)
    requires inbox != [] && inbox[0].Notify? && c.address(index).Some?
    requires c.deposits(c.address(index).value) == Some(ds) && FindDeposit(ds, inbox[0].txid) == Some(d)
    ensures Onward(inbox, c)(w, next, Some(index)) == [Fetched(TxidsOf(ds), false)] + ReceiptEffects(w, d, index, c)
  {}

  lemma FetchRuns(w: World, fs: seq<Effect>, seen: Effect, booked: seq<Effect>)
    requires seen.Fetched?
    ensures Run(w, fs + ([seen] + booked)) == Run(Run(w, fs), booked)
  {
    RunConcat(w, fs, [seen] + booked);
    RunConcat(Run(w, fs), [seen], booked);
    RunSnoc(Run(w, fs), [], seen);
  }

  lemma QuietBefore(log: seq<Entry>, log1: seq<Entry>, log': seq<Entry>, t: Txid, sats: nat, index: nat)
    requires NoPayments(log, log1) && (HasTxid(log1, t) <==> HasTxid(log, t))
    requires BooksDeposit(log1, log', t, sats, index)
    ensures BooksDeposit(log, log', t, sats, index)
  {
    assert log1 <= log' && forall j :: 0 <= j < |log1| ==> log'[j] == log1[j];
    if !HasTxid(log, t) {
      var i :| |log1| <= i < |log'| && log'[i] == Received(log'[i].no, t, sats, index, Pending)
               && forall j :: |log1| <= j < |log'| && j != i ==> !log'[j].Payment();
    }
  }

  lemma FirstIsTheOne(ds: seq<Deposit>, t: Txid, k: nat)
    requires k < |ds| && ds[k].txid == t && forall j :: 0 <= j < k ==> ds[j].txid != t
    ensures FindDeposit(ds, t) == Some(ds[k])
  {
    assert FindDeposit(ds, t).Some? by { assert ds[k] in ds; }
    var d := FindDeposit(ds, t).value;
    var i :| 0 <= i < |ds| && ds[i] == d && d.txid == t && forall j :: 0 <= j < i ==> ds[j].txid != t;
    assert i == k;
  }

  /** Two messages that differ at most in the amounts the peer claims. */
  predicate SameButClaim(m: Message, m': Message) {
    match m
    case AddrRequest(_) => m'.AddrRequest?
    case Notify(t, _) => m'.Notify? && m'.txid == t
    case _ => m' == m
  }

  /** No amount the peer claims has any influence on what a session does. */
  lemma {:induction false} ClaimsHaveNoInfluence(w: World, next: nat, issued: Option<nat>,
                                                 inbox: seq<Message>, inbox': seq<Message>, c: Chain)
    requires |inbox| == |inbox'| && forall i :: 0 <= i < |inbox| ==> SameButClaim(inbox[i], inbox'[i])
    ensures SessionEffects(w, next, issued, inbox, c) == SessionEffects(w, next, issued, inbox', c)
    decreases |inbox|
  {
    if inbox != [] {
      assert SameButClaim(inbox[0], inbox'[0]);
      match inbox[0]
      case AddrRequest(_) =>
        ClaimsHaveNoInfluence(Run(w, AskEffects(w, next, c)), next + 1, Some(next), inbox[1..], inbox'[1..], c);
      case Notify(_, _) =>
      case _ => ClaimsHaveNoInfluence(w, next, issued, inbox[1..], inbox'[1..], c);
    }
  }

  // --- the pay side -----------------------------------------------------------------------

  /** The first address response that the peer sends. */
  function FirstResponse(inbox: seq<Message>): (r: Option<(string, nat)>)
    ensures r.None? <==> forall i :: 0 <= i < |inbox| ==> !inbox[i].AddrResponse?
    ensures r.Some? ==> exists i :: 0 <= i < |inbox| && inbox[i] == AddrResponse(r.value.0, r.value.1)
                                    && forall j :: 0 <= j < i ==> !inbox[j].AddrResponse?
  {
    if inbox == [] then None
    else if inbox[0].AddrResponse? then Some((inbox[0].address, inbox[0].index))
    else FirstResponse(inbox[1..])
  }

  /** Amount gates first, then the peer is asked, then the address gate, then the
      recorded send, and only then the notification. */
  method RunPayer(led: Ledger, policy: Policy, inbox: seq<Message>, build: string -> Result<Built>,
                  sats: nat, checkedAt: nat, now: nat, answer: Answer)
      returns (r: Result<Txid>, outbox: seq<Message>)
    requires led.Valid()
    modifies led
    ensures led.Valid()
    ensures var spent := SpentSince(old(led.entries), Minus(checkedAt, 86_400));
            var response := FirstResponse(inbox);
            if !WithinCaps(policy, sats, spent) then
              r == Err && outbox == [] && led.trace == old(led.trace)
            else if response.None? || response.value.0 in policy.blocked || build(response.value.0).Err? then
              r == Err && outbox == [AddrRequest(sats)] && led.trace == old(led.trace)
            else
              var b := build(response.value.0).value;
              var p := Payment(b.txid, b.hex, response.value.0, sats, now, []);
              && led.trace == old(led.trace) + SendEffects(old(led.world), p, answer)
              && Paid(old(led.entries), led.entries, led.trace[|old(led.trace)|..], p, answer)
              && (answer == Taken ==> r == Ok(b.txid) && outbox == [AddrRequest(sats), Notify(b.txid, sats)])
              && (answer != Taken ==> r == Err && outbox == [AddrRequest(sats)])
  {
    outbox := [];
    var spent := SpentSince(led.entries, Minus(checkedAt, DAILY_WINDOW_SECS));
    if CheckAmount(policy, sats, spent) != None {
      return Err, outbox;
    }
    outbox := outbox + [AddrRequest(sats)];
    var i := 0;
    while i < |inbox| && !inbox[i].AddrResponse?
      invariant i <= |inbox| && FirstResponse(inbox) == FirstResponse(inbox[i..])
    {
      i := i + 1;
    }
    if i == |inbox| || CheckAddress(policy, inbox[i].address) != None {
      return Err, outbox;
    }
    r := Send(led, build(inbox[i].address), inbox[i].address, sats, now, answer);
    if r.Ok? {
      outbox := outbox + [Notify(r.value, sats)];
    }
  }
}
