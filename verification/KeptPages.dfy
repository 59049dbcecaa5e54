/** What one more log record does to the pages redo would rebuild: a record inside a
    group does nothing, the record that ends a group brings every page its owner holds
    up to date, and a page nobody holds is up to date already. */
module KeptPages {
  import opened Nodes
  import opened TxnLog
  import opened PageRedo
  import opened OpGroups
  import opened WalMachine
  import opened WalProof

  /** Page `p` as redo of the whole log would leave it. */
  ghost function KeptNow(s: State, p: PageId): Version { Kept(s.log, s.first, |s.log|, p, At(s.v0, p)) }

  lemma {:induction false} KeptIsAll(log: seq<Record>, first: nat, n: nat, p: PageId, v0: Version)
    requires n <= |log| && forall i :: 0 <= i < |log| && OnPage(log[i].body, p) ==> Applicable(log, i)
    ensures Kept(log, first, n, p, v0) == Hist(log, first, n, p, v0)
    decreases n
  {
    hide Applicable, AfterRecord;
    if n > 0 {
      KeptIsAll(log, first, n - 1, p, v0);
    }
  }

  /** A page nobody holds is in memory what redo would make of it. */
  lemma UnheldIsKept(s: State, p: PageId)
    requires Inv(s) && Unheld(s, p)
    ensures At(s.cur, p) == KeptNow(s, p)
  {
    UnheldComplete(s, p);
    assert PageInv(s, p);
    hide Inv, Hist, Kept, Applicable, PageLogOk;
    KeptIsAll(s.log, s.first, |s.log|, p, At(s.v0, p));
  }

  /** A record that ends nothing leaves every page as it was. */
  lemma OpenRecord(s: State, s': State, r: Record, p: PageId)
    requires s'.log == s.log + [r] && !r.opEnd && s'.first == s.first && s'.v0 == s.v0
    ensures KeptNow(s', p) == KeptNow(s, p)
  {
    hide Kept;
    var n := |s'.log|;
    assert s'.log[..n] == s'.log && s'.log[..n - 1] == s.log;
    OpenRecordDropped(s'.log, s.first, n, p, At(s.v0, p));
  }

  /** The record that ends `r.txid`'s group: pages it does not hold stay, pages it held
      become what they are in memory. */
  lemma EndRecord(s: State, s': State, r: Record, p: PageId)
    requires Inv(s) && Inv(s') && s'.log == s.log + [r] && r.opEnd && s'.first == s.first && s'.v0 == s.v0
    requires s'.ops == s.ops - {r.txid}
    requires OnPage(r.body, p) ==> r.txid in s.ops && p in s.ops[r.txid]
    ensures if r.txid in s.ops && p in s.ops[r.txid] then KeptNow(s', p) == At(s'.cur, p)
            else KeptNow(s', p) == KeptNow(s, p)
  {
    if r.txid in s.ops && p in s.ops[r.txid] {
      assert Unheld(s', p) by { hide PageInv, FileInv, OpenInv, RootAfter, RootsEnd, MetasOk; assert GlobalInv(s); }
      hide Inv, Kept, Unheld;
      UnheldIsKept(s', p);
    } else {
      hide PageInv, FileInv, GlobalInv, Kept, Applicable;
      var n := |s.log|;
      forall i | 0 <= i < n && OnPage(s.log[i].body, p) ensures Applicable(s.log, i) <==> Applicable(s'.log, i) {
        assert OpenInv(s, i);
        assert s'.log[..n + 1] == s'.log && s'.log[..n] == s.log && s'.log[i] == s.log[i];
        ApplicableStep(s'.log, n + 1, i);
      }
      KeptSame(s.log, s'.log, s.first, n, p, At(s.v0, p));
      KeptStalls(s'.log, s.first, n, n + 1, p, At(s.v0, p));
    }
  }
}
