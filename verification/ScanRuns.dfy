// Many scan passes, cut short anywhere, against tips that rise and fall: together
// they book what one uninterrupted scan would book.
module ScanRuns {
  import opened Base
  import opened Log
  import opened World
  import opened LedgerStore
  import opened PolicyGate
  import opened Curve
  import opened SilentPayments
  import opened Pay
  import opened Scan
  import opened Signing
  import opened Invariant
  import Hex

  /** u is a payment to the viewer in the block at height h. */
  predicate PaidAt(book: Booker, blocks: Blocks, h: nat, u: SpUtxo)
  {
    u in Payments(book, blocks(h))
  }

  /** A transaction id names one transaction. */
  ghost predicate IdsNameTransactions(blocks: Blocks) {
    forall h, h', tx, tx' :: tx in blocks(h) && tx' in blocks(h') && tx.txid == tx'.txid ==> tx == tx'
  }

  // --- which outputs a run of effects books ------------------------------------------------

  ghost predicate AppendsOutput(fs: seq<Effect>, u: SpUtxo) {
    exists f :: f in fs && f.Append? && f.entry.SpReceived?
                && SpUtxo(f.entry.txid, f.entry.vout, f.entry.sats, f.entry.tweak) == u
  }

  lemma BookedSnoc(log: seq<Entry>, e: Entry, u: SpUtxo)
    ensures SpEntryOf(log + [e], u)
            <==> SpEntryOf(log, u) || (e.SpReceived? && SpUtxo(e.txid, e.vout, e.sats, e.tweak) == u)
  {
    assert forall x :: x in log + [e] <==> x in log || x == e;
    assert e in log + [e];
  }

  lemma {:induction false} RunBooks(w: World, fs: seq<Effect>, u: SpUtxo)
    ensures SpEntryOf(Run(w, fs).log, u) <==> SpEntryOf(w.log, u) || AppendsOutput(fs, u)
    decreases |fs|
  {
    if fs != [] {
      RunBooks(Apply(w, fs[0]), fs[1..], u);
      assert fs == [fs[0]] + fs[1..];
      assert forall x :: x in fs <==> x == fs[0] || x in fs[1..];
      if fs[0].Append? {
        BookedSnoc(w.log, fs[0].entry, u);
      }
    }
  }

  lemma {:induction false} BookEffectsAppend(w: World, us: seq<SpUtxo>, u: SpUtxo)
    requires AppendsOutput(BookEffects(w, us), u)
    ensures u in us
  {
    if us != [] {
      var front := us[..|us| - 1];
      if AppendsOutput(BookEffects(w, front), u) {
        BookEffectsAppend(w, front, u);
      }
    }
  }

  lemma {:induction false} PagesEffectsAppend(book: Booker, w: World, pages: seq<seq<Tx>>, u: SpUtxo)
    requires AppendsOutput(PagesEffects(book, w, pages), u)
    ensures OnSomePage(book, pages, u)
  {
    if pages != [] {
      var front, page := pages[..|pages| - 1], pages[|pages| - 1];
      var fs := PagesEffects(book, w, front);
      assert page in pages && forall p :: p in front ==> p in pages;
      if AppendsOutput(fs, u) {
        PagesEffectsAppend(book, w, front, u);
      } else {
        assert AppendsOutput(BookEffects(Run(w, fs), Payments(book, page)), u);
        BookEffectsAppend(Run(w, fs), Payments(book, page), u);
      }
    }
  }

  lemma HasOutputGrows(log: seq<Entry>, log': seq<Entry>, p: Outpoint)
    requires log <= log' && HasSpOutput(log, p)
    ensures HasSpOutput(log', p)
  {
    var e :| e in log && e.SpReceived? && (e.txid, e.vout) == p;
    assert log' == log + log'[|log|..];
    assert e in log';
  }

  lemma {:induction false} BookEffectsCover(w: World, us: seq<SpUtxo>, u: SpUtxo)
    requires u in us
    ensures HasSpOutput(Run(w, BookEffects(w, us)).log, u.Point())
  {
    var front, last := us[..|us| - 1], us[|us| - 1];
    var fs := BookEffects(w, front);
    var w1 := Run(w, fs);
    var gs := SpReceiveEffects(w1.log, last);
    RunConcat(w, fs, gs);
    RunExtendsLog(w1, gs);
    if u in front {
      BookEffectsCover(w, front, u);
      HasOutputGrows(w1.log, Run(w1, gs).log, u.Point());
    } else {
      assert us == front + [last];
      OutputIsBooked(w1, last);
    }
  }

  lemma OutputIsBooked(w: World, u: SpUtxo)
    ensures HasSpOutput(Run(w, SpReceiveEffects(w.log, u)).log, u.Point())
  {
    var fs := SpReceiveEffects(w.log, u);
    if fs != [] {
      RunSnoc(w, [], fs[0]);
      Snoc(w.log, fs[0].entry);
      assert fs == [] + [fs[0]];
    } else {
      assert Run(w, fs) == w;
    }
  }

  lemma PageRuns(book: Booker, w: World, page: seq<Tx>)
    ensures Run(w, PageEffects(book, w, page)) == Run(w, BookEffects(w, Payments(book, page)))
  {
    var f := Fetched(Ids(page), true);
    RunSnoc(w, [], f);
    RunConcat(w, [f], BookEffects(w, Payments(book, page)));
  }

  lemma LastPageCovers(book: Booker, w: World, page: seq<Tx>, u: SpUtxo)
    ensures var log' := Run(w, PageEffects(book, w, page)).log;
            HasSpOutput(w.log, u.Point()) || u in Payments(book, page) ==> HasSpOutput(log', u.Point())
  {
    PageRuns(book, w, page);
    RunExtendsLog(w, BookEffects(w, Payments(book, page)));
    if u in Payments(book, page) {
      BookEffectsCover(w, Payments(book, page), u);
    } else if HasSpOutput(w.log, u.Point()) {
      HasOutputGrows(w.log, Run(w, BookEffects(w, Payments(book, page))).log, u.Point());
    }
  }

  lemma {:induction false} PagesEffectsCover(book: Booker, w: World, pages: seq<seq<Tx>>, page: seq<Tx>, u: SpUtxo)
    requires page in pages && u in Payments(book, page)
    ensures HasSpOutput(Run(w, PagesEffects(book, w, pages)).log, u.Point())
  {
    var front, last := pages[..|pages| - 1], pages[|pages| - 1];
    var fs := PagesEffects(book, w, front);
    assert pages == front + [last];
    PagesSnoc(book, w, front, last);
    RunConcat(w, fs, PageEffects(book, Run(w, fs), last));
    if page in front {
      PagesEffectsCover(book, w, front, page, u);
    }
    LastPageCovers(book, Run(w, fs), last, u);
  }

  /** No outpoint is booked twice. */
  ghost predicate BookedOnce(log: seq<Entry>) {
    forall i, j :: 0 <= i < j < |log| && log[i].SpReceived? && log[j].SpReceived? ==>
      (log[i].txid, log[i].vout) != (log[j].txid, log[j].vout)
  }

  lemma OnceSnoc(log: seq<Entry>, e: Entry)
    requires BookedOnce(log) && (e.SpReceived? ==> !HasSpOutput(log, (e.txid, e.vout)))
    ensures BookedOnce(log + [e])
  {
    assert forall i :: 0 <= i < |log| ==> log[i] in log;
  }

  lemma {:induction false} BookingOnce(w: World, us: seq<SpUtxo>)
    requires BookedOnce(w.log)
    ensures BookedOnce(Run(w, BookEffects(w, us)).log)
  {
    if us != [] {
      var front, u := us[..|us| - 1], us[|us| - 1];
      var w1 := Run(w, BookEffects(w, front));
      BookingOnce(w, front);
      RunConcat(w, BookEffects(w, front), SpReceiveEffects(w1.log, u));
      var e := SpReceived(NextSeq(w1.log), u.txid, u.vout, u.sats, u.tweak, Pending);
      if !HasSpOutput(w1.log, u.Point()) {
        OnceSnoc(w1.log, e);
        RunSnoc(w1, [], Append(e));
      }
    }
  }

  lemma {:induction false} PagesOnce(book: Booker, w: World, pages: seq<seq<Tx>>)
    requires BookedOnce(w.log)
    ensures BookedOnce(Run(w, PagesEffects(book, w, pages)).log)
  {
    if pages != [] {
      var front, page := pages[..|pages| - 1], pages[|pages| - 1];
      var fs := PagesEffects(book, w, front);
      PagesOnce(book, w, front);
      RunConcat(w, fs, PageEffects(book, Run(w, fs), page));
      PageRuns(book, Run(w, fs), page);
      BookingOnce(Run(w, fs), Payments(book, page));
    }
  }

  lemma {:induction false} NoOutputsOnce(w: World, fs: seq<Effect>)
    requires BookedOnce(w.log) && forall u :: !AppendsOutput(fs, u)
    ensures BookedOnce(Run(w, fs).log)
    decreases |fs|
  {
    if fs != [] {
      var f := fs[0];
      assert f in fs && forall x :: x in fs[1..] ==> x in fs;
      if f.Append? {
        var e := f.entry;
        assert e.SpReceived? ==> AppendsOutput(fs, SpUtxo(e.txid, e.vout, e.sats, e.tweak));
        OnceSnoc(w.log, e);
      }
      forall u ensures !AppendsOutput(fs[1..], u) { assert !AppendsOutput(fs, u); }
      NoOutputsOnce(Apply(w, f), fs[1..]);
    }
  }

  lemma CutOnce(w: World, fs: seq<Effect>, k: nat)
    requires k <= |fs| && BookedOnce(Run(w, fs).log)
    ensures BookedOnce(Run(w, fs[..k]).log)
  {
    assert fs == fs[..k] + fs[k..];
    RunConcat(w, fs[..k], fs[k..]);
    RunExtendsLog(Run(w, fs[..k]), fs[k..]);
  }

  // --- pages and blocks -------------------------------------------------------------------------

  lemma PaymentsConcatSnoc(book: Booker, a: seq<Tx>, front: seq<Tx>, tx: Tx)
    requires Payments(book, a + front) == Payments(book, a) + Payments(book, front)
    ensures Payments(book, a + (front + [tx])) == Payments(book, a) + Payments(book, front + [tx])
  {
    var us := book(tx);
    PaymentsSnoc(book, a + front, tx);
    PaymentsSnoc(book, front, tx);
    Assoc(a, front, [tx]);
    Assoc(Payments(book, a), Payments(book, front), us);
  }

  lemma {:induction false} PaymentsConcat(book: Booker, a: seq<Tx>, b: seq<Tx>)
    ensures Payments(book, a + b) == Payments(book, a) + Payments(book, b)
  {
    if b == [] {
      assert a + b == a;
    } else {
      PaymentsConcat(book, a, b[..|b| - 1]);
      PaymentsConcatSnoc(book, a, b[..|b| - 1], b[|b| - 1]);
      assert b == b[..|b| - 1] + [b[|b| - 1]];
    }
  }

  lemma PaymentsSnoc(book: Booker, txs: seq<Tx>, tx: Tx)
    ensures Payments(book, txs + [tx]) == Payments(book, txs) + book(tx)
  {
    assert (txs + [tx])[..|txs|] == txs;
  }

  ghost predicate OnSomePage(book: Booker, pages: seq<seq<Tx>>, u: SpUtxo)
  {
    exists page :: page in pages && u in Payments(book, page)
  }

  lemma OnSomePageConcat(book: Booker, a: seq<seq<Tx>>, b: seq<seq<Tx>>, u: SpUtxo)
    ensures OnSomePage(book, a + b, u) <==> OnSomePage(book, a, u) || OnSomePage(book, b, u)
  {
    assert forall p :: p in a + b <==> p in a || p in b;
  }

  lemma OnSomePageCons(book: Booker, pages: seq<seq<Tx>>, u: SpUtxo)
    requires pages != []
    ensures OnSomePage(book, pages, u) <==> u in Payments(book, pages[0]) || OnSomePage(book, pages[1..], u)
  {
    assert forall p :: p in pages <==> p == pages[0] || p in pages[1..];
  }

  lemma {:induction false} PaymentsOfPages(book: Booker, pages: seq<seq<Tx>>, u: SpUtxo)
    ensures u in Payments(book, Joined(pages)) <==> OnSomePage(book, pages, u)
  {
    if pages != [] {
      PaymentsOfPages(book, pages[1..], u);
      PaymentsConcat(book, pages[0], Joined(pages[1..]));
      OnSomePageCons(book, pages, u);
    }
  }

  ghost predicate PaidBetween(book: Booker, blocks: Blocks, start: nat, end: nat, u: SpUtxo)
  {
    exists h: nat :: start <= h < end && PaidAt(book, blocks, h, u)
  }

  lemma RangeHoldsOneMore(book: Booker, blocks: Blocks, start: nat, top: nat, u: SpUtxo)
    requires start <= top
    ensures OnSomePage(book, RangePages(blocks, start, top + 1), u)
            <==> OnSomePage(book, RangePages(blocks, start, top), u) || PaidAt(book, blocks, top, u)
  {
    BlockOnPages(book, blocks, top, u);
    OnSomePageConcat(book, RangePages(blocks, start, top), Pages(blocks(top)), u);
  }

  lemma {:induction false} RangeHoldsBlocks(book: Booker, blocks: Blocks, start: nat, end: nat, u: SpUtxo)
    ensures OnSomePage(book, RangePages(blocks, start, end), u) <==> PaidBetween(book, blocks, start, end, u)
    decreases end
  {
    if end > start {
      RangeHoldsBlocks(book, blocks, start, end - 1, u);
      RangeHoldsOneMore(book, blocks, start, end - 1, u);
      PaidBetweenSnoc(book, blocks, start, end - 1, u);
    }
  }

  lemma PaidBetweenSnoc(book: Booker, blocks: Blocks, start: nat, top: nat, u: SpUtxo)
    requires start <= top
    ensures PaidBetween(book, blocks, start, top + 1, u)
            <==> PaidBetween(book, blocks, start, top, u) || PaidAt(book, blocks, top, u)
  {}

  lemma BlockOnPages(book: Booker, blocks: Blocks, h: nat, u: SpUtxo)
    ensures OnSomePage(book, Pages(blocks(h)), u) <==> PaidAt(book, blocks, h, u)
  {
    PagesCoverBlock(blocks(h));
    PaymentsOfPages(book, Pages(blocks(h)), u);
  }

  // --- outpoints are unambiguous ------------------------------------------------------------------

  lemma {:induction false} PaymentsComeFrom(book: Booker, txs: seq<Tx>, u: SpUtxo)
    requires u in Payments(book, txs)
    ensures exists tx :: tx in txs && u in book(tx)
  {
    var front, tx := txs[..|txs| - 1], txs[|txs| - 1];
    assert tx in txs && forall x :: x in front ==> x in txs;
    if u in Payments(book, front) {
      PaymentsComeFrom(book, front, u);
    }
  }

  /** us are outputs of the transaction txid, none of them twice. */
  ghost predicate OutputsOf(txid: Txid, us: seq<SpUtxo>) {
    forall u, u' :: u in us && u' in us ==> u.txid == txid && (u.vout == u'.vout ==> u == u')
  }

  /** What is booked for a transaction are outputs of it, none of them twice. */
  ghost predicate Unambiguous(book: Booker) {
    forall tx: Tx :: OutputsOf(tx.txid, book(tx))
  }

  /** An outpoint names one payment. */
  lemma PointNamesPayment(book: Booker, blocks: Blocks, h: nat, h': nat, u: SpUtxo, u': SpUtxo)
    requires Unambiguous(book) && IdsNameTransactions(blocks)
    requires PaidAt(book, blocks, h, u) && PaidAt(book, blocks, h', u') && u.Point() == u'.Point()
    ensures u == u'
  {
    PaymentsComeFrom(book, blocks(h), u);
    PaymentsComeFrom(book, blocks(h'), u');
    var tx :| tx in blocks(h) && u in book(tx);
    var tx' :| tx' in blocks(h') && u' in book(tx');
    assert tx == tx' && OutputsOf(tx.txid, book(tx));
  }

  lemma MatchesHaveDistinctVouts(v: Viewer, tx: Tx)
    requires v.g.n > 0
    ensures DistinctFound(TxMatches(v, tx))
  {
    if TxMatches(v, tx) != [] {
      var outs := TxOutputs(v.g, tx.vout);
      OutputsInOrder(v.g, tx.vout);
      var ecdh := ReceiverEcdh(v.g, Pubkeys(v.g, tx.vin), Smallest(Prevs(tx.vin)), v.scanSk).value;
      GreedyFindsOutputs(outs, 0, Ranks(v.g, ecdh, v.spendSk));
      assert DistinctVouts(outs);
    }
  }

  lemma SameVoutSameForm(txid: Txid, found: seq<SpFound>, u: SpUtxo, u': SpUtxo)
    requires DistinctFound(found) && u in BookForm(txid, found) && u' in BookForm(txid, found) && u.vout == u'.vout
    ensures u == u' && u.txid == txid
  {
    BookFormIsFound(txid, found, u);
    BookFormIsFound(txid, found, u');
    var f :| f in found && u == SpUtxo(txid, f.vout, f.sats, Hex.HexLower(f.tweak));
    var f' :| f' in found && u' == SpUtxo(txid, f'.vout, f'.sats, Hex.HexLower(f'.tweak));
    var i :| 0 <= i < |found| && found[i] == f;
    var j :| 0 <= j < |found| && found[j] == f';
    assert i == j;
  }

  lemma FormsAreOutputs(txid: Txid, found: seq<SpFound>)
    requires DistinctFound(found)
    ensures OutputsOf(txid, BookForm(txid, found))
  {
    forall u, u' | u in BookForm(txid, found) && u' in BookForm(txid, found)
      ensures u.txid == txid && (u.vout == u'.vout ==> u == u')
    {
      SameVoutSameForm(txid, found, u, u);
      if u.vout == u'.vout {
        SameVoutSameForm(txid, found, u, u');
      }
    }
  }

  /** The scanner's own matching is unambiguous, for every wallet. */
  lemma ScannerIsUnambiguous(v: Viewer)
    requires v.g.n > 0
    ensures Unambiguous(BookerOf(v))
  {
    forall tx: Tx ensures OutputsOf(tx.txid, BookerOf(v)(tx)) {
      MatchesHaveDistinctVouts(v, tx);
      FormsAreOutputs(tx.txid, TxMatches(v, tx));
    }
  }

  // --- runs of passes ---------------------------------------------------------------------------------

  ghost predicate Tame(e: Event) {
    e.Other? ==> forall u :: !AppendsOutput(e.effects, u)
  }

  function AfterAll(book: Booker, blocks: Blocks, s: Progress, es: seq<Event>): Progress
  {
    if es == [] then s else After(book, blocks, AfterAll(book, blocks, s, es[..|es| - 1]), es[|es| - 1])
  }

  ghost predicate InRange(book: Booker, blocks: Blocks, lo: nat, hi: nat, u: SpUtxo)
  {
    exists h: nat :: lo < h <= hi && PaidAt(book, blocks, h, u)
  }

  /** Everything between the lowest and the current checkpoint is booked, nothing is booked
      twice, and nothing that is not paid between the lowest checkpoint and the highest tip. */
  ghost predicate Consistent(book: Booker, blocks: Blocks, s: Progress)
  {
    && s.checkpoint.Some? && s.low <= s.checkpoint.value <= s.high && BookedOnce(s.w.log)
    && (forall u :: InRange(book, blocks, s.low, s.checkpoint.value, u) ==> SpEntryOf(s.w.log, u))
    && (forall u :: SpEntryOf(s.w.log, u) ==> InRange(book, blocks, s.low, s.high, u))
  }

  lemma {:induction false} SpendAllBooksNothing(w: World, ps: seq<Outpoint>, u: SpUtxo)
    ensures !AppendsOutput(SpendAll(w, ps), u)
  {
    if ps != [] {
      SpendAllBooksNothing(w, ps[..|ps| - 1], u);
    }
  }

  /** A part of a walk books only what is paid in its range. */
  lemma WalkBooksRange(book: Booker, blocks: Blocks, s: Progress, tip: nat, k: nat, u: SpUtxo)
    requires k <= |Walk(book, blocks, s, tip)|
    requires SpEntryOf(Run(s.w, Walk(book, blocks, s, tip)[..k]).log, u)
    ensures SpEntryOf(s.w.log, u) || PaidBetween(book, blocks, StartOf(s.checkpoint, tip), tip + 1, u)
  {
    var fs, start := Walk(book, blocks, s, tip), StartOf(s.checkpoint, tip);
    RunBooks(s.w, fs[..k], u);
    if AppendsOutput(fs[..k], u) {
      assert AppendsOutput(fs, u);
      PagesEffectsAppend(book, s.w, RangePages(blocks, start, tip + 1), u);
      RangeHoldsBlocks(book, blocks, start, tip + 1, u);
    }
  }

  lemma WalkOnce(book: Booker, blocks: Blocks, s: Progress, tip: nat, k: nat)
    requires BookedOnce(s.w.log) && k <= |Walk(book, blocks, s, tip)|
    ensures BookedOnce(Run(s.w, Walk(book, blocks, s, tip)[..k]).log)
  {
    PagesOnce(book, s.w, RangePages(blocks, StartOf(s.checkpoint, tip), tip + 1));
    CutOnce(s.w, Walk(book, blocks, s, tip), k);
  }

  /** Marking outpoints spent books no output. */
  lemma MarksBookNothing(w: World, ps: seq<Outpoint>)
    ensures var w' := Run(w, SpendAll(w, ps));
            && (forall u :: SpEntryOf(w'.log, u) <==> SpEntryOf(w.log, u))
            && (BookedOnce(w.log) ==> BookedOnce(w'.log))
  {
    forall u ensures !AppendsOutput(SpendAll(w, ps), u) { SpendAllBooksNothing(w, ps, u); }
    forall u ensures SpEntryOf(Run(w, SpendAll(w, ps)).log, u) <==> SpEntryOf(w.log, u) {
      RunBooks(w, SpendAll(w, ps), u);
    }
    if BookedOnce(w.log) {
      NoOutputsOnce(w, SpendAll(w, ps));
    }
  }

  /** Everything booked is paid somewhere on the chain. */
  ghost predicate BookedArePaid(book: Booker, blocks: Blocks, log: seq<Entry>)
  {
    forall u :: SpEntryOf(log, u) ==> exists h: nat :: PaidAt(book, blocks, h, u)
  }

  /** If an outpoint is booked, it is booked as what the chain pays it. */
  lemma BookedAsPaid(book: Booker, blocks: Blocks, log: seq<Entry>, h: nat, u: SpUtxo)
    requires Unambiguous(book) && IdsNameTransactions(blocks) && BookedArePaid(book, blocks, log)
    requires PaidAt(book, blocks, h, u) && HasSpOutput(log, u.Point())
    ensures SpEntryOf(log, u)
  {
    var e :| e in log && e.SpReceived? && (e.txid, e.vout) == u.Point();
    var x := SpUtxo(e.txid, e.vout, e.sats, e.tweak);
    assert SpEntryOf(log, x);
    var h': nat :| PaidAt(book, blocks, h', x);
    PointNamesPayment(book, blocks, h', h, x, u);
  }

  /** A whole walk books everything paid in its range, as it is paid. */
  lemma WalkCoversRange(book: Booker, blocks: Blocks, s: Progress, tip: nat, u: SpUtxo)
    requires Unambiguous(book) && IdsNameTransactions(blocks) && BookedArePaid(book, blocks, s.w.log)
    requires PaidBetween(book, blocks, StartOf(s.checkpoint, tip), tip + 1, u)
    ensures SpEntryOf(Run(s.w, Walk(book, blocks, s, tip)).log, u)
  {
    var pages := RangePages(blocks, StartOf(s.checkpoint, tip), tip + 1);
    RangeHoldsBlocks(book, blocks, StartOf(s.checkpoint, tip), tip + 1, u);
    var page :| page in pages && u in Payments(book, page);
    PagesEffectsCover(book, s.w, pages, page, u);
    WalkKeepsPaid(book, blocks, s, tip);
    var h: nat :| PaidAt(book, blocks, h, u);
    BookedAsPaid(book, blocks, Run(s.w, Walk(book, blocks, s, tip)).log, h, u);
  }

  lemma WalkKeepsPaid(book: Booker, blocks: Blocks, s: Progress, tip: nat)
    requires BookedArePaid(book, blocks, s.w.log)
    ensures BookedArePaid(book, blocks, Run(s.w, Walk(book, blocks, s, tip)).log)
  {
    var fs := Walk(book, blocks, s, tip);
    assert fs[..|fs|] == fs;
    forall x | SpEntryOf(Run(s.w, fs).log, x) ensures exists h: nat :: PaidAt(book, blocks, h, x) {
      WalkBooksRange(book, blocks, s, tip, |fs|, x);
    }
  }

  lemma AfterKeepsConsistent(book: Booker, blocks: Blocks, s: Progress, e: Event)
    requires Unambiguous(book) && IdsNameTransactions(blocks) && Consistent(book, blocks, s) && Tame(e)
    ensures Consistent(book, blocks, After(book, blocks, s, e))
  {
    var s' := After(book, blocks, s, e);
    match e
    case Other(fs) =>
      NoOutputsOnce(s.w, fs);
      forall u ensures SpEntryOf(s'.w.log, u) <==> SpEntryOf(s.w.log, u) { RunBooks(s.w, fs, u); }
    case CutPass(tip, cut) =>
      var fs := Walk(book, blocks, s, tip);
      var k := if cut < |fs| then cut else |fs|;
      assert fs[..|fs|] == fs;
      WalkOnce(book, blocks, s, tip, k);
      forall u | SpEntryOf(s.w.log, u) ensures SpEntryOf(s'.w.log, u) { RunBooks(s.w, fs[..k], u); }
      forall u | SpEntryOf(s'.w.log, u) ensures InRange(book, blocks, s'.low, s'.high, u) {
        WalkBooksRange(book, blocks, s, tip, k, u);
      }
    case FullPass(tip, marked) =>
      var fs := Walk(book, blocks, s, tip);
      var w1 := Run(s.w, fs);
      assert fs[..|fs|] == fs;
      WalkOnce(book, blocks, s, tip, |fs|);
      MarksBookNothing(w1, marked);
      forall u | SpEntryOf(s'.w.log, u) ensures InRange(book, blocks, s'.low, s'.high, u) {
        WalkBooksRange(book, blocks, s, tip, |fs|, u);
      }
      forall u | InRange(book, blocks, s'.low, tip, u) ensures SpEntryOf(s'.w.log, u) {
        var h: nat :| s'.low < h <= tip && PaidAt(book, blocks, h, u);
        if h <= s.checkpoint.value {
          assert InRange(book, blocks, s.low, s.checkpoint.value, u);
          RunBooks(s.w, fs, u);
        } else {
          WalkCoversRange(book, blocks, s, tip, u);
        }
      }
  }

  /** However passes were cut, and wherever the tips went, the blocks between the lowest
      checkpoint and the current one are fully booked, at the chain's amounts. */
  lemma {:induction false} PassesStayConsistent(book: Booker, blocks: Blocks, s: Progress, es: seq<Event>)
    requires Unambiguous(book) && IdsNameTransactions(blocks) && Consistent(book, blocks, s)
    requires forall e :: e in es ==> Tame(e)
    ensures Consistent(book, blocks, AfterAll(book, blocks, s, es))
  {
    if es != [] {
      var front := es[..|es| - 1];
      assert es == front + [es[|es| - 1]];
      PassesStayConsistent(book, blocks, s, front);
      AfterKeepsConsistent(book, blocks, AfterAll(book, blocks, s, front), es[|es| - 1]);
    }
  }

  /** Interrupted scanning equals one scan: after a complete pass to the highest tip seen,
      the booked outputs are exactly the payments above the lowest checkpoint, each outpoint
      once; that checkpoint is the one the run started from if no complete pass saw a lower
      tip. */
  lemma InterruptedScanEqualsOneScan(book: Booker, blocks: Blocks, w: World, h0: nat, es: seq<Event>,
                                     tip: nat, marked: seq<Outpoint>)
    requires Unambiguous(book) && IdsNameTransactions(blocks) && (forall e :: e in es ==> Tame(e))
    requires forall u :: !SpEntryOf(w.log, u)
    requires tip >= AfterAll(book, blocks, Progress(w, Some(h0), h0, h0), es).high
    ensures var before := AfterAll(book, blocks, Progress(w, Some(h0), h0, h0), es);
            var s := After(book, blocks, before, FullPass(tip, marked));
            && (forall u :: SpEntryOf(s.w.log, u) <==> InRange(book, blocks, s.low, tip, u))
            && BookedOnce(s.w.log)
            && s.low <= h0
            && ((forall e :: e in es && e.FullPass? ==> e.tip >= h0) ==> s.low == h0)
  {
    var s0 := Progress(w, Some(h0), h0, h0);
    NothingBookedTwice(w.log);
    assert Consistent(book, blocks, s0);
    PassesStayConsistent(book, blocks, s0, es);
    LowestCheckpoint(book, blocks, s0, es);
    AfterKeepsConsistent(book, blocks, AfterAll(book, blocks, s0, es), FullPass(tip, marked));
  }

  lemma {:induction false} PaymentsHold(book: Booker, txs: seq<Tx>, tx: Tx, u: SpUtxo)
    requires tx in txs && u in book(tx)
    ensures u in Payments(book, txs)
  {
    if tx in txs[..|txs| - 1] {
      PaymentsHold(book, txs[..|txs| - 1], tx, u);
    } else {
      assert txs == txs[..|txs| - 1] + [txs[|txs| - 1]];
    }
  }

  /** The log holds exactly one entry for the outpoint of u, and that is u. */
  ghost predicate BookedAs(log: seq<Entry>, u: SpUtxo) {
    && (exists i :: 0 <= i < |log| && log[i].SpReceived?
                    && SpUtxo(log[i].txid, log[i].vout, log[i].sats, log[i].tweak) == u)
    && (forall i, j :: 0 <= i < j < |log| && log[i].SpReceived? && log[j].SpReceived? ==>
          !((log[i].txid, log[i].vout) == (log[j].txid, log[j].vout) == u.Point()))
  }

  /** Whatever is matched in a block above the starting checkpoint, and is worth at least 330
      sats, is on the books once after any interrupted passes and a complete one. */
  lemma EveryMatchIsBooked(v: Viewer, blocks: Blocks, w: World, h0: nat, es: seq<Event>, tip: nat,
                           marked: seq<Outpoint>, h: nat, tx: Tx, f: SpFound)
    requires v.g.n > 0 && IdsNameTransactions(blocks) && (forall e :: e in es ==> Tame(e))
    requires forall u :: !SpEntryOf(w.log, u)
    requires tip >= AfterAll(BookerOf(v), blocks, Progress(w, Some(h0), h0, h0), es).high
    requires h0 < h <= tip && tx in blocks(h) && f in TxMatches(v, tx) && f.sats >= 330
    ensures var before := AfterAll(BookerOf(v), blocks, Progress(w, Some(h0), h0, h0), es);
            var s := After(BookerOf(v), blocks, before, FullPass(tip, marked));
            BookedAs(s.w.log, SpUtxo(tx.txid, f.vout, f.sats, Hex.HexLower(f.tweak)))
  {
    var book, u := BookerOf(v), SpUtxo(tx.txid, f.vout, f.sats, Hex.HexLower(f.tweak));
    MatchIsBooked(tx.txid, TxMatches(v, tx), f);
    PaymentsHold(book, blocks(h), tx, u);
    ScannerIsUnambiguous(v);
    InterruptedScanEqualsOneScan(book, blocks, w, h0, es, tip, marked);
    var s := After(book, blocks, AfterAll(book, blocks, Progress(w, Some(h0), h0, h0), es), FullPass(tip, marked));
    assert PaidAt(book, blocks, h, u) && InRange(book, blocks, s.low, tip, u);
    assert SpEntryOf(s.w.log, u);
    var e :| e in s.w.log && e.SpReceived? && SpUtxo(e.txid, e.vout, e.sats, e.tweak) == u;
    var i :| 0 <= i < |s.w.log| && s.w.log[i] == e;
  }

  /** End to end: a payment of at least 330 sats to the address that the sender derived, in
      a block above the starting checkpoint, is on the books of the code's owner after any
      interrupted passes and a complete one: once, at its place and value, with a tweak that
      makes the spend key the key of that output. */
  lemma PaymentIsBooked(v: Viewer, inputs: seq<SpInput>, listed: seq<SpInput>, tx: Tx, x: int, o: nat,
                        blocks: Blocks, w: World, h0: nat, es: seq<Event>, tip: nat, marked: seq<Outpoint>, h: nat)
      returns (u: SpUtxo)
    requires v.g.Valid() && inputs != [] && multiset(inputs) == multiset(listed) && SpendsInputs(v.g, tx, listed)
    requires SendAddress(v.g, inputs, v.scanSk, v.spendSk) == Some(x)
    requires NothingFails(v, listed, tx, SenderEcdh(v.g, inputs, v.scanSk).value)
    requires o < |tx.vout| && tx.vout[o].script == P2tr(x) && tx.vout[o].value >= 330
    requires forall j :: 0 <= j < o ==> tx.vout[j].script != P2tr(x)
    requires IdsNameTransactions(blocks) && (forall e :: e in es ==> Tame(e))
    requires forall y :: !SpEntryOf(w.log, y)
    requires tip >= AfterAll(BookerOf(v), blocks, Progress(w, Some(h0), h0, h0), es).high
    requires h0 < h <= tip && tx in blocks(h)
    ensures var before := AfterAll(BookerOf(v), blocks, Progress(w, Some(h0), h0, h0), es);
            var s := After(BookerOf(v), blocks, before, FullPass(tip, marked));
            BookedAs(s.w.log, u)
    ensures u.txid == tx.txid && u.vout == o && u.sats == tx.vout[o].value
    ensures Spendable(v.g, v.spendSk, u) && v.g.XOnly(KeyOf(v.g, v.spendSk, u)) == x
  {
    OwnerFindsPayment(v, inputs, listed, tx, x, o);
    var f := TxMatches(v, tx)[0];
    u := SpUtxo(tx.txid, f.vout, f.sats, Hex.HexLower(f.tweak));
    EveryMatchIsBooked(v, blocks, w, h0, es, tip, marked, h, tx, f);
    MatchIsBooked(tx.txid, TxMatches(v, tx), f);
    BookedIsSpendable(v, tx, u);
  }

  lemma NothingBookedTwice(log: seq<Entry>)
    requires forall u :: !SpEntryOf(log, u)
    ensures BookedOnce(log)
  {
    forall e | e in log ensures !e.SpReceived? {
      assert e.SpReceived? ==> SpEntryOf(log, SpUtxo(e.txid, e.vout, e.sats, e.tweak));
    }
  }

  lemma {:induction false} LowestCheckpoint(book: Booker, blocks: Blocks, s: Progress, es: seq<Event>)
    ensures var s' := AfterAll(book, blocks, s, es);
            s'.low <= s.low && s'.high >= s.high &&
            ((forall e :: e in es && e.FullPass? ==> e.tip >= s.low) ==> s'.low == s.low)
  {
    if es != [] {
      var front := es[..|es| - 1];
      assert es == front + [es[|es| - 1]];
      LowestCheckpoint(book, blocks, s, front);
    }
  }

  // --- passes without a checkpoint ----------------------------------------------------------------

  /** u is paid in the tip's block or one of the 144 before it: the window that a pass
      without a checkpoint walks. */
  ghost predicate InWindow(book: Booker, blocks: Blocks, tip: nat, u: SpUtxo) {
    exists h: nat :: h <= tip <= h + 144 && PaidAt(book, blocks, h, u)
  }

  lemma WindowIsRange(book: Booker, blocks: Blocks, tip: nat, u: SpUtxo)
    ensures InWindow(book, blocks, tip, u) <==> PaidBetween(book, blocks, StartOf(None, tip), tip + 1, u)
  {}

  /** Nothing but passes that were cut, and what books no output. */
  ghost predicate OnlyCuts(es: seq<Event>) {
    forall e :: e in es ==> !e.FullPass? && Tame(e)
  }

  ghost predicate InSomeWindow(book: Booker, blocks: Blocks, es: seq<Event>, u: SpUtxo) {
    exists e :: e in es && e.CutPass? && InWindow(book, blocks, e.tip, u)
  }

  /** A cut pass without a checkpoint leaves none, loses nothing that was booked, and books
      only what its window pays. */
  lemma CutWithoutCheckpoint(book: Booker, blocks: Blocks, s: Progress, e: Event, u: SpUtxo)
    requires s.checkpoint == None && !e.FullPass? && Tame(e)
    ensures var s' := After(book, blocks, s, e);
            && s'.checkpoint == None
            && (SpEntryOf(s.w.log, u) ==> SpEntryOf(s'.w.log, u))
            && (SpEntryOf(s'.w.log, u) ==>
                  SpEntryOf(s.w.log, u) || (e.CutPass? && InWindow(book, blocks, e.tip, u)))
  {
    match e
    case Other(fs) => RunBooks(s.w, fs, u);
    case CutPass(tip, cut) =>
      var fs := Walk(book, blocks, s, tip);
      var k := if cut < |fs| then cut else |fs|;
      assert fs[..|fs|] == fs;
      RunBooks(s.w, fs[..k], u);
      if SpEntryOf(Run(s.w, fs[..k]).log, u) {
        WalkBooksRange(book, blocks, s, tip, k, u);
        WindowIsRange(book, blocks, tip, u);
      }
  }

  /** Nor do any number of them. */
  lemma {:induction false} CutsWithoutCheckpoint(book: Booker, blocks: Blocks, s: Progress, es: seq<Event>, u: SpUtxo)
    requires s.checkpoint == None && OnlyCuts(es)
    ensures var s' := AfterAll(book, blocks, s, es);
            && s'.checkpoint == None
            && (SpEntryOf(s.w.log, u) ==> SpEntryOf(s'.w.log, u))
            && (SpEntryOf(s'.w.log, u) ==> SpEntryOf(s.w.log, u) || InSomeWindow(book, blocks, es, u))
  {
    if es != [] {
      var front, e := es[..|es| - 1], es[|es| - 1];
      assert e in es && forall x :: x in front ==> x in es;
      CutsWithoutCheckpoint(book, blocks, s, front, u);
      CutWithoutCheckpoint(book, blocks, AfterAll(book, blocks, s, front), e, u);
    }
  }

  /** The first complete pass books its own window on top of what was booked before it. */
  lemma FirstFullPassBooksItsWindow(book: Booker, blocks: Blocks, s: Progress,
                                    tip: nat, marked: seq<Outpoint>, u: SpUtxo)
    requires Unambiguous(book) && IdsNameTransactions(blocks) && BookedArePaid(book, blocks, s.w.log)
    requires s.checkpoint == None
    ensures SpEntryOf(After(book, blocks, s, FullPass(tip, marked)).w.log, u)
            <==> SpEntryOf(s.w.log, u) || InWindow(book, blocks, tip, u)
  {
    var fs := Walk(book, blocks, s, tip);
    assert fs[..|fs|] == fs;
    RunBooks(s.w, fs, u);
    MarksBookNothing(Run(s.w, fs), marked);
    WindowIsRange(book, blocks, tip, u);
    if SpEntryOf(Run(s.w, fs).log, u) {
      WalkBooksRange(book, blocks, s, tip, |fs|, u);
    }
    if InWindow(book, blocks, tip, u) {
      WalkCoversRange(book, blocks, s, tip, u);
    }
  }

  lemma CutsKeepPaid(book: Booker, blocks: Blocks, w: World, es: seq<Event>)
    requires OnlyCuts(es) && forall x :: !SpEntryOf(w.log, x)
    ensures BookedArePaid(book, blocks, AfterAll(book, blocks, Progress(w, None, 0, 0), es).w.log)
  {
    var s := AfterAll(book, blocks, Progress(w, None, 0, 0), es);
    forall u | SpEntryOf(s.w.log, u) ensures exists h: nat :: PaidAt(book, blocks, h, u) {
      CutsWithoutCheckpoint(book, blocks, Progress(w, None, 0, 0), es, u);
    }
  }

  /** Without a checkpoint the start moves with the tip. However the passes before the first
      complete one were cut, what is booked in the end is exactly what they had managed to
      book, which lies in their windows, and the window of the complete pass itself. */
  lemma WithoutCheckpointOldBlocksAreSkipped(book: Booker, blocks: Blocks, w: World, es: seq<Event>,
                                             tip: nat, marked: seq<Outpoint>, u: SpUtxo)
    requires Unambiguous(book) && IdsNameTransactions(blocks)
    requires OnlyCuts(es) && forall x :: !SpEntryOf(w.log, x)
    ensures var s := AfterAll(book, blocks, Progress(w, None, 0, 0), es);
            && s.checkpoint == None
            && (SpEntryOf(s.w.log, u) ==> InSomeWindow(book, blocks, es, u))
            && (SpEntryOf(After(book, blocks, s, FullPass(tip, marked)).w.log, u)
                <==> SpEntryOf(s.w.log, u) || InWindow(book, blocks, tip, u))
  {
    CutsWithoutCheckpoint(book, blocks, Progress(w, None, 0, 0), es, u);
    CutsKeepPaid(book, blocks, w, es);
    FirstFullPassBooksItsWindow(book, blocks, AfterAll(book, blocks, Progress(w, None, 0, 0), es), tip, marked, u);
  }

  /** Nothing that a cut pass would have walked, up to the tip, is skipped unless the tip rose
      above that pass's and above height 144. */
  lemma NothingSkippedUnlessStartRises(book: Booker, blocks: Blocks, w: World, es: seq<Event>,
                                       tip: nat, marked: seq<Outpoint>, e: Event, h: nat, u: SpUtxo)
    requires Unambiguous(book) && IdsNameTransactions(blocks)
    requires OnlyCuts(es) && (forall x :: !SpEntryOf(w.log, x)) && e in es && e.CutPass?
    requires tip <= e.tip || tip <= 144
    requires h <= tip && e.tip <= h + 144 && PaidAt(book, blocks, h, u)
    ensures var s := AfterAll(book, blocks, Progress(w, None, 0, 0), es);
            SpEntryOf(After(book, blocks, s, FullPass(tip, marked)).w.log, u)
  {
    WithoutCheckpointOldBlocksAreSkipped(book, blocks, w, es, tip, marked, u);
  }

  // --- what is skipped stays skipped --------------------------------------------------------------

  /** Later passes never go back below the checkpoint. */
  ghost predicate NeverBelow(es: seq<Event>, h: nat) {
    forall e :: e in es ==> Tame(e) && (e.FullPass? ==> e.tip >= h)
  }

  lemma AfterBooksAbove(book: Booker, blocks: Blocks, s: Progress, e: Event, h: nat, u: SpUtxo)
    requires s.checkpoint.Some? && s.checkpoint.value >= h && NeverBelow([e], h)
    ensures var s' := After(book, blocks, s, e);
            && s'.checkpoint.Some? && s'.checkpoint.value >= h
            && (SpEntryOf(s'.w.log, u) ==>
                  SpEntryOf(s.w.log, u) || exists at: nat :: at > h && PaidAt(book, blocks, at, u))
  {
    assert e in [e];
    match e
    case Other(fs) => RunBooks(s.w, fs, u);
    case CutPass(tip, cut) =>
      var fs := Walk(book, blocks, s, tip);
      var k := if cut < |fs| then cut else |fs|;
      assert fs[..|fs|] == fs;
      if SpEntryOf(Run(s.w, fs[..k]).log, u) {
        WalkBooksRange(book, blocks, s, tip, k, u);
      }
    case FullPass(tip, marked) =>
      var fs := Walk(book, blocks, s, tip);
      assert fs[..|fs|] == fs;
      MarksBookNothing(Run(s.w, fs), marked);
      if SpEntryOf(Run(s.w, fs).log, u) {
        WalkBooksRange(book, blocks, s, tip, |fs|, u);
      }
  }

  /** A payment that is not booked when the checkpoint has passed it is never booked, as
      long as no complete pass sees a tip below that checkpoint. */
  lemma {:induction false} SkippedForGood(book: Booker, blocks: Blocks, s: Progress, es: seq<Event>, h: nat, u: SpUtxo)
    requires s.checkpoint.Some? && s.checkpoint.value >= h && NeverBelow(es, h)
    requires !SpEntryOf(s.w.log, u) && forall at: nat :: at > h ==> !PaidAt(book, blocks, at, u)
    ensures var s' := AfterAll(book, blocks, s, es);
            !SpEntryOf(s'.w.log, u) && s'.checkpoint.Some? && s'.checkpoint.value >= h
  {
    if es != [] {
      var front, e := es[..|es| - 1], es[|es| - 1];
      assert e in es && forall x :: x in front ==> x in es;
      SkippedForGood(book, blocks, s, front, h, u);
      AfterBooksAbove(book, blocks, AfterAll(book, blocks, s, front), e, h, u);
    }
  }

  /** So a first pass that is cut before it books anything, and a complete one that starts
      higher, lose for good everything that is paid only below the second start. */
  lemma UnbookedBelowStartIsSkipped(book: Booker, blocks: Blocks, w: World, tip1: nat, tip2: nat,
                                    es: seq<Event>, u: SpUtxo)
    requires Unambiguous(book) && IdsNameTransactions(blocks) && NeverBelow(es, tip2)
    requires forall x :: !SpEntryOf(w.log, x)
    requires forall at: nat :: at + 144 >= tip2 ==> !PaidAt(book, blocks, at, u)
    ensures var s1 := After(book, blocks, Progress(w, None, 0, 0), CutPass(tip1, 0));
            !SpEntryOf(AfterAll(book, blocks, After(book, blocks, s1, FullPass(tip2, [])), es).w.log, u)
  {
    var s0 := Progress(w, None, 0, 0);
    var s1 := After(book, blocks, s0, CutPass(tip1, 0));
    var fs := Walk(book, blocks, s0, tip1);
    assert s1.w == w by { assert fs == [] || fs[..0] == []; }
    FirstFullPassBooksItsWindow(book, blocks, s1, tip2, [], u);
    SkippedForGood(book, blocks, After(book, blocks, s1, FullPass(tip2, [])), es, tip2, u);
  }
}
