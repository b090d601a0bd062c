/** Receipts and gas: one receipt per finished transaction, and a gas total that adds them up. */
module Accounting {
  import opened Types
  import opened Executive
  import opened Traversal
  import opened Batch
  import opened Discipline
  import opened Sending

  /** Gas used according to the receipts written so far. */
  ghost function GasSum(rs: seq<Option<Receipt>>): int {
    if rs == [] then 0
    else
      var last := rs[|rs| - 1];
      GasSum(rs[..|rs| - 1]) + if last.Some? then TRANSACTION_GAS - last.value.gasAvailable else 0
  }

  lemma {:induction false} GasSumUpdate(rs: seq<Option<Receipt>>, i: nat, r: Receipt)
    requires i < |rs| && rs[i].None?
    ensures GasSum(rs[i := Some(r)]) == GasSum(rs) + TRANSACTION_GAS - r.gasAvailable
  {
    var n, us := |rs| - 1, rs[i := Some(r)];
    if i == n {
      assert us[..n] == rs[..n];
    } else {
      assert us[..n] == rs[..n][i := Some(r)];
      GasSumUpdate(rs[..n], i, r);
    }
  }

  /** The receipts that are missing are exactly those of the contexts still being executed. */
  ghost predicate Accounted(rs: seq<Option<Receipt>>, gasUsed: nat, ids: set<ContextID>) {
    && (forall i :: 0 <= i < |rs| ==> (rs[i].None? <==> i in ids))
    && (forall c :: c in ids ==> 0 <= c < |rs|)
    && gasUsed == GasSum(rs) % WORD
  }

  /** Receipts are written once: those of `rs` are still there in `us`, unchanged. */
  ghost predicate Extends(rs: seq<Option<Receipt>>, us: seq<Option<Receipt>>) {
    |us| == |rs| && forall i :: 0 <= i < |rs| && rs[i].Some? ==> us[i] == rs[i]
  }

  /** A visit writes a receipt exactly when it deletes its state. */
  lemma VisitStartReceipts(x: Executors, e: BatchState, s: ExecutiveState)
    requires Visitable(x, e, s)
    ensures var v := VisitStart(x, e, s);
            if v.hint.DELETE? then
              && v.env.receipts == e.receipts[s.contextID := Some(ReceiptOf(s.message.value))]
              && v.env.gasUsed == GasAfter(e.gasUsed, s.message.value.gasAvailable)
            else v.env.receipts == e.receipts && v.env.gasUsed == e.gasUsed
  {
  }

  lemma AccountReceipt(rs: seq<Option<Receipt>>, gasUsed: nat, ids: set<ContextID>, c: ContextID, r: Receipt)
    requires Accounted(rs, gasUsed, ids) && c in ids
    ensures Accounted(rs[c := Some(r)], GasAfter(gasUsed, r.gasAvailable), ids - {c})
    ensures Extends(rs, rs[c := Some(r)])
  {
    GasSumUpdate(rs, c, r);
    ModAdd(GasSum(rs), TRANSACTION_GAS - r.gasAvailable);
  }

  lemma ModAdd(a: int, b: int)
    ensures (a % WORD + b) % WORD == (a + b) % WORD
  {
    var q := a / WORD;
    assert a == q * WORD + a % WORD;
    assert (a + b) == q * WORD + (a % WORD + b);
    ModShift(a % WORD + b, q);
  }

  lemma {:induction false} ModShift(a: int, q: int)
    ensures (q * WORD + a) % WORD == a % WORD
    decreases if q < 0 then -q else q
  {
    if q > 0 { ModShift(a, q - 1); assert q * WORD + a == ((q - 1) * WORD + a) + WORD; }
    if q < 0 { ModShift(a, q + 1); assert q * WORD + a == ((q + 1) * WORD + a) - WORD; }
  }

  lemma {:induction false} RunAccounted(x: Executors, es: seq<Entry>, c: Cursor<BatchState>)
    requires SendingInv(x, es, c) && Accounted(c.env.receipts, c.env.gasUsed, Ids(c.behind + c.ahead))
    ensures var d := Run(StartCallback(x), c);
            && Accounted(d.env.receipts, d.env.gasUsed, Ids(d.behind + d.ahead))
            && Extends(c.env.receipts, d.env.receipts)
    decreases |c.ahead|
  {
    if c.ahead != [] {
      var h := c.ahead[0];
      var v := VisitStart(x, c.env, h.state);
      var d := Advance(c, v);
      HeadVisitable(x, es, c);
      VisitStartOk(x, c.env, h.state);
      VisitStartCalls(x, c.env, h.state);
      VisitStartReceipts(x, c.env, h.state);
      SendingStep(x, es, c, v);
      AdvanceConserves(es, c, v);
      if v.hint.DELETE? {
        assert (c.behind + c.ahead)[|c.behind|] == h;
        assert h.state.contextID in Ids(c.behind + c.ahead);
        AccountReceipt(c.env.receipts, c.env.gasUsed, Ids(c.behind + c.ahead), h.state.contextID, ReceiptOf(h.state.message.value));
      }
      assert Accounted(d.env.receipts, d.env.gasUsed, Ids(d.behind + d.ahead));
      RunAccounted(x, es, Step(StartCallback(x), c));
    }
  }

  /** The sending pass keeps the account, and writes each receipt once. */
  lemma SendingPassAccounted(x: Executors, sys: System)
    requires AtRest(sys) && SlotsExist(sys) && Obeys(x, sys.entries)
    requires Accounted(sys.receipts, sys.gasUsed, Ids(sys.entries))
    ensures var p := SendingPass(x, sys);
            && Accounted(p.env.receipts, p.env.gasUsed, Ids(p.entries))
            && Extends(sys.receipts, p.env.receipts)
  {
    var c0 := SendingStarts(x, sys);
    assert c0.behind + c0.ahead == sys.entries;
    RunAccounted(x, sys.entries, c0);
    RunSending(x, sys.entries, c0);
    var c := Run(StartCallback(x), c0);
    assert c.behind + c.ahead == c.behind && RekeyAll(c.taken) == [];
  }

  /** With sane gas values the total is the plain sum: it does not wrap around. */
  lemma {:induction false} GasSumBounds(rs: seq<Option<Receipt>>)
    requires forall i :: 0 <= i < |rs| && rs[i].Some? ==> 0 <= rs[i].value.gasAvailable <= TRANSACTION_GAS
    ensures 0 <= GasSum(rs) <= |rs| * TRANSACTION_GAS
  {
    if rs != [] {
      GasSumBounds(rs[..|rs| - 1]);
    }
  }
}
