/**
 * WalletModel::getOutputs: turns outpoints into spendable outputs of the
 * wallet's own transactions, appending them to a vector the caller owns.
 * The wallet's transaction map is an input; each transaction carries the
 * depth GetDepthInMainChain reports for it.
 */
module WalletOutputs {
  import opened FixedWidth

  /** An output of a transaction: the transaction id and the output index. */
  datatype COutPoint = COutPoint(txid: uint256, n: uint32)

  /** A wallet transaction, as far as getOutputs looks at it. */
  datatype WalletTx = WalletTx(depth: int)

  /**
   * An output ready for coin selection. The C++ struct refers to the
   * wallet's transaction; the model holds its id and its entry.
   */
  datatype COutput = COutput(txid: uint256, tx: WalletTx, i: uint32, nDepth: int,
                             fSpendable: bool, fSolvable: bool, fSafe: bool)

  /** The wallet's mapWallet: transactions by id. */
  type TxMap = map<uint256, WalletTx>

  /** Whether getOutputs keeps the outpoint: its transaction is in the wallet and not conflicted. */
  predicate Usable(p: COutPoint, mapWallet: TxMap)
  {
    p.txid in mapWallet && mapWallet[p.txid].depth >= 0
  }

  /** The output getOutputs builds for a usable outpoint. */
  function OutputFor(p: COutPoint, mapWallet: TxMap): COutput
    requires p.txid in mapWallet
  {
    var tx := mapWallet[p.txid];
    COutput(p.txid, tx, p.n, tx.depth, true, true, true)
  }

  /** The outputs getOutputs appends for `ps`, in order. */
  function Selected(ps: seq<COutPoint>, mapWallet: TxMap): (r: seq<COutput>)
    ensures |r| <= |ps|
  {
    if ps == [] then []
    else Selected(ps[..|ps| - 1], mapWallet)
         + (if Usable(ps[|ps| - 1], mapWallet) then [OutputFor(ps[|ps| - 1], mapWallet)] else [])
  }

  /**
   * Selection works outpoint by outpoint: selecting from two lists one after
   * the other is selecting from their concatenation, so order is kept.
   */
  lemma {:induction false} SelectedAppend(a: seq<COutPoint>, b: seq<COutPoint>, mapWallet: TxMap)
    ensures Selected(a + b, mapWallet) == Selected(a, mapWallet) + Selected(b, mapWallet)
    decreases |b|
  {
    if b == [] {
      assert a + b == a;
    } else {
      var b' := b[..|b| - 1];
      assert (a + b)[..|a + b| - 1] == a + b';
      SelectedAppend(a, b', mapWallet);
    }
  }

  /**
   * Every appended output comes from a usable outpoint: it names that
   * outpoint's transaction and index, records the transaction's depth, and
   * is marked spendable, solvable and safe.
   */
  lemma {:induction false} SelectedSound(ps: seq<COutPoint>, mapWallet: TxMap, o: COutput)
    requires o in Selected(ps, mapWallet)
    ensures exists p | p in ps :: Usable(p, mapWallet) && o == OutputFor(p, mapWallet)
    ensures o.nDepth >= 0 && o.fSpendable && o.fSolvable && o.fSafe
  {
    var init := ps[..|ps| - 1];
    var last := ps[|ps| - 1];
    if o in Selected(init, mapWallet) {
      SelectedSound(init, mapWallet, o);
      var p :| p in init && Usable(p, mapWallet) && o == OutputFor(p, mapWallet);
      assert p in ps;
    } else {
      assert Usable(last, mapWallet) && o == OutputFor(last, mapWallet);
    }
  }

  /** Every usable outpoint gives its output. */
  lemma {:induction false} SelectedComplete(ps: seq<COutPoint>, mapWallet: TxMap, k: nat)
    requires k < |ps| && Usable(ps[k], mapWallet)
    ensures OutputFor(ps[k], mapWallet) in Selected(ps, mapWallet)
  {
    var init := ps[..|ps| - 1];
    if k < |ps| - 1 {
      assert init[k] == ps[k];
      SelectedComplete(init, mapWallet, k);
    }
  }

  /**
   * No outpoint is dropped exactly when every outpoint's transaction is in
   * the wallet at a depth of zero or more.
   */
  lemma {:induction false} NothingDroppedIffAllUsable(ps: seq<COutPoint>, mapWallet: TxMap)
    ensures |Selected(ps, mapWallet)| == |ps| <==> forall k | 0 <= k < |ps| :: Usable(ps[k], mapWallet)
  {
    if ps != [] {
      var init := ps[..|ps| - 1];
      NothingDroppedIffAllUsable(init, mapWallet);
      if forall k | 0 <= k < |ps| :: Usable(ps[k], mapWallet) {
        forall k | 0 <= k < |init|
          ensures Usable(init[k], mapWallet)
        {
          assert init[k] == ps[k];
        }
      } else if |Selected(ps, mapWallet)| == |ps| {
        assert forall k | 0 <= k < |init| :: init[k] == ps[k];
      }
    }
  }

  /** The caller's std::vector<COutput>. */
  class OutputVector {
    var elems: seq<COutput>

    constructor(elems: seq<COutput>)
      ensures this.elems == elems
    {
      this.elems := elems;
    }

    method PushBack(o: COutput)
      modifies this
      ensures elems == old(elems) + [o]
    {
      elems := elems + [o];
    }
  }

  /**
   * Appends to `vOutputs`, in the order of `vOutpoints`, the output of every
   * outpoint whose transaction the wallet holds at a depth of zero or more;
   * the entries already in `vOutputs` stay as they were.
   */
  method GetOutputs(vOutpoints: seq<COutPoint>, mapWallet: TxMap, vOutputs: OutputVector)
    modifies vOutputs
    ensures vOutputs.elems == old(vOutputs.elems) + Selected(vOutpoints, mapWallet)
  {
    for k := 0 to |vOutpoints|
      invariant vOutputs.elems == old(vOutputs.elems) + Selected(vOutpoints[..k], mapWallet)
    {
      var outpoint := vOutpoints[k];
      assert vOutpoints[..k + 1][..k] == vOutpoints[..k];
      if outpoint.txid !in mapWallet {
        continue;
      }
      var it := mapWallet[outpoint.txid];
      var nDepth := it.depth;
      if nDepth < 0 {
        continue;
      }
      var out := COutput(outpoint.txid, it, outpoint.n, nDepth, true, true, true);
      vOutputs.PushBack(out);
    }
    assert vOutpoints[..|vOutpoints|] == vOutpoints;
  }
}
