/**
 * WalletModel::prepareTransaction: the pre-checks a send request goes
 * through before the wallet builds the transaction, and how the outcome of
 * building it becomes a status code. The wallet's answers (is an address
 * valid, the spendable balance, what CreateTransaction returns) are inputs.
 */
module WalletSend {
  import opened FixedWidth

  /** One payee as entered in the send dialog. */
  datatype SendCoinsRecipient = SendCoinsRecipient(address: string, amount: Amount, fSubtractFeeFromAmount: bool)

  /**
   * One output handed to the wallet. The script is derived from the address
   * by a decoder outside this model, so the address stands for it here.
   */
  datatype CRecipient = CRecipient(scriptPubKey: string, nAmount: Amount, fSubtractFeeFromAmount: bool)

  /** What CreateTransaction reports: success, the fee and the change position. */
  datatype Creation = Creation(fCreated: bool, nFeeRequired: Amount, nChangePosRet: int)

  /** The SendCoinsReturn codes prepareTransaction can give. */
  datatype SendStatus =
    | OK
    | InvalidAmount
    | InvalidAddress
    | AmountExceedsBalance
    | AmountWithFeeExceedsBalance
    | DuplicateAddress
    | TransactionCreationFailed
    | AbsurdFee

  datatype Option<T> = None | Some(value: T)

  /**
   * The status, the fee recorded on the transaction (only once creation was
   * attempted) and the change position amounts were reassigned with (only when
   * that happened).
   */
  datatype PrepareOutcome = PrepareOutcome(status: SendStatus, fee: Option<Amount>, reassignedAt: Option<int>)

  /** The per-recipient check: the address first, then the amount. */
  function RecipientError(r: SendCoinsRecipient, validateAddress: string -> bool): Option<SendStatus>
  {
    if !validateAddress(r.address) then Some(InvalidAddress)
    else if r.amount <= 0 then Some(InvalidAmount)
    else None
  }

  /** The error of the first recipient, in list order, that fails its check. */
  function FirstFailure(rs: seq<SendCoinsRecipient>, validateAddress: string -> bool): (r: Option<SendStatus>)
    ensures r == None || r == Some(InvalidAddress) || r == Some(InvalidAmount)
  {
    if rs == [] then None
    else if RecipientError(rs[0], validateAddress).Some? then RecipientError(rs[0], validateAddress)
    else FirstFailure(rs[1..], validateAddress)
  }

  function Addresses(rs: seq<SendCoinsRecipient>): set<string>
  {
    if rs == [] then {} else Addresses(rs[..|rs| - 1]) + {rs[|rs| - 1].address}
  }

  function Total(rs: seq<SendCoinsRecipient>): int
  {
    if rs == [] then 0 else Total(rs[..|rs| - 1]) + rs[|rs| - 1].amount
  }

  predicate AnySubtractsFee(rs: seq<SendCoinsRecipient>)
  {
    exists i | 0 <= i < |rs| :: rs[i].fSubtractFeeFromAmount
  }

  function ToCRecipient(r: SendCoinsRecipient): CRecipient
  {
    CRecipient(r.address, r.amount, r.fSubtractFeeFromAmount)
  }

  /** The outputs handed to the wallet: one per recipient, in order. */
  function ToCRecipients(rs: seq<SendCoinsRecipient>): (v: seq<CRecipient>)
    ensures |v| == |rs|
    ensures forall i | 0 <= i < |rs| :: v[i] == ToCRecipient(rs[i])
  {
    if rs == [] then [] else [ToCRecipient(rs[0])] + ToCRecipients(rs[1..])
  }

  /** Two recipients pay the same address. */
  predicate HasDuplicateAddress(rs: seq<SendCoinsRecipient>)
  {
    exists i, j | 0 <= i < j < |rs| :: rs[i].address == rs[j].address
  }

  /** How the result of CreateTransaction becomes a status. */
  function CreationStatus(total: int, nBalance: Amount, subtractFee: bool, c: Creation, maxTxFee: Amount): SendStatus
  {
    if !c.fCreated then
      if !subtractFee && total + c.nFeeRequired > nBalance then AmountWithFeeExceedsBalance
      else TransactionCreationFailed
    else if c.nFeeRequired > maxTxFee then AbsurdFee
    else OK
  }

  /**
   * The outcome of prepareTransaction for recipients `rs`, an address
   * validator, the available balance, CreateTransaction as a function of the
   * outputs it is given, and the fee cap.
   */
  function Prepare(rs: seq<SendCoinsRecipient>, validateAddress: string -> bool, nBalance: Amount,
                   createTransaction: seq<CRecipient> -> Creation, maxTxFee: Amount): PrepareOutcome
  {
    if rs == [] then PrepareOutcome(OK, None, None)
    else if FirstFailure(rs, validateAddress).Some? then PrepareOutcome(FirstFailure(rs, validateAddress).value, None, None)
    else if |Addresses(rs)| != |rs| then PrepareOutcome(DuplicateAddress, None, None)
    else if Total(rs) > nBalance then PrepareOutcome(AmountExceedsBalance, None, None)
    else
      var c := createTransaction(ToCRecipients(rs));
      var subtractFee := AnySubtractsFee(rs);
      PrepareOutcome(CreationStatus(Total(rs), nBalance, subtractFee, c, maxTxFee),
                     Some(c.nFeeRequired),
                     if subtractFee && c.fCreated then Some(c.nChangePosRet) else None)
  }

  /**
   * The validation loop as the wallet model runs it: walk the recipients,
   * stop at the first bad address or amount, collect the addresses in a set,
   * count them, build the outputs and sum the amounts; then compare the set's
   * size with the count, the total with the balance, and map the creation
   * result.
   */
  method PrepareTransaction(recipients: seq<SendCoinsRecipient>, validateAddress: string -> bool, nBalance: Amount,
                            createTransaction: seq<CRecipient> -> Creation, maxTxFee: Amount)
    returns (outcome: PrepareOutcome)
    ensures outcome == Prepare(recipients, validateAddress, nBalance, createTransaction, maxTxFee)
  {
    var total := 0;
    var fSubtractFeeFromAmount := false;
    var vecSend: seq<CRecipient> := [];

    if |recipients| == 0 {
      return PrepareOutcome(OK, None, None);
    }

    var setAddress: set<string> := {};
    var nAddresses := 0;

    for i := 0 to |recipients|
      invariant FirstFailure(recipients, validateAddress) == FirstFailure(recipients[i..], validateAddress)
      invariant setAddress == Addresses(recipients[..i])
      invariant nAddresses == i
      invariant total == Total(recipients[..i])
      invariant |vecSend| == i && forall j | 0 <= j < i :: vecSend[j] == ToCRecipient(recipients[j])
      invariant fSubtractFeeFromAmount == AnySubtractsFee(recipients[..i])
    {
      var rcp := recipients[i];
      assert recipients[..i + 1][..i] == recipients[..i];
      assert recipients[i..][1..] == recipients[i + 1..];
      if rcp.fSubtractFeeFromAmount {
        fSubtractFeeFromAmount := true;
      }
      if !validateAddress(rcp.address) {
        return PrepareOutcome(InvalidAddress, None, None);
      }
      if rcp.amount <= 0 {
        return PrepareOutcome(InvalidAmount, None, None);
      }
      setAddress := setAddress + {rcp.address};
      nAddresses := nAddresses + 1;
      vecSend := vecSend + [ToCRecipient(rcp)];
      total := total + rcp.amount;
      assert AnySubtractsFee(recipients[..i + 1]) == (AnySubtractsFee(recipients[..i]) || rcp.fSubtractFeeFromAmount) by {
        if rcp.fSubtractFeeFromAmount {
          assert recipients[..i + 1][i].fSubtractFeeFromAmount;
        }
      }
    }
    assert recipients[..|recipients|] == recipients;
    assert recipients[|recipients|..] == [];
    assert vecSend == ToCRecipients(recipients);

    if |setAddress| != nAddresses {
      return PrepareOutcome(DuplicateAddress, None, None);
    }

    if total > nBalance {
      return PrepareOutcome(AmountExceedsBalance, None, None);
    }

    var created := createTransaction(vecSend);
    var nFeeRequired := created.nFeeRequired;
    var reassignedAt: Option<int> := None;
    if fSubtractFeeFromAmount && created.fCreated {
      reassignedAt := Some(created.nChangePosRet);
    }

    if !created.fCreated {
      if !fSubtractFeeFromAmount && total + nFeeRequired > nBalance {
        return PrepareOutcome(AmountWithFeeExceedsBalance, Some(nFeeRequired), reassignedAt);
      }
      return PrepareOutcome(TransactionCreationFailed, Some(nFeeRequired), reassignedAt);
    }

    if nFeeRequired > maxTxFee {
      return PrepareOutcome(AbsurdFee, Some(nFeeRequired), reassignedAt);
    }

    return PrepareOutcome(OK, Some(nFeeRequired), reassignedAt);
  }

  // ---------------------------------------------------------------------
  // Properties of the specification

  /** No recipients: nothing to check, the request is OK. */
  lemma EmptyRequestIsOk(validateAddress: string -> bool, nBalance: Amount,
                         createTransaction: seq<CRecipient> -> Creation, maxTxFee: Amount)
    ensures Prepare([], validateAddress, nBalance, createTransaction, maxTxFee) == PrepareOutcome(OK, None, None)
  {
  }

  /**
   * Recipients are checked in order and the first failing one decides: if
   * every recipient before `k` passes and recipient `k` fails, the result is
   * InvalidAddress when its address is bad, else InvalidAmount, and nothing
   * is created.
   */
  lemma {:induction false} FirstFailingRecipientDecides(rs: seq<SendCoinsRecipient>, k: nat, validateAddress: string -> bool,
                                                        nBalance: Amount, createTransaction: seq<CRecipient> -> Creation, maxTxFee: Amount)
    requires k < |rs|
    requires forall j | 0 <= j < k :: validateAddress(rs[j].address) && rs[j].amount > 0
    requires !validateAddress(rs[k].address) || rs[k].amount <= 0
    ensures Prepare(rs, validateAddress, nBalance, createTransaction, maxTxFee)
         == PrepareOutcome(if !validateAddress(rs[k].address) then InvalidAddress else InvalidAmount, None, None)
  {
    FirstFailureAt(rs, k, validateAddress);
  }

  lemma {:induction false} FirstFailureAt(rs: seq<SendCoinsRecipient>, k: nat, validateAddress: string -> bool)
    requires k < |rs|
    requires forall j | 0 <= j < k :: RecipientError(rs[j], validateAddress).None?
    requires RecipientError(rs[k], validateAddress).Some?
    ensures FirstFailure(rs, validateAddress) == RecipientError(rs[k], validateAddress)
  {
    if k > 0 {
      assert RecipientError(rs[0], validateAddress).None?;
      FirstFailureAt(rs[1..], k - 1, validateAddress);
    }
  }

  /** No failure is reported exactly when every recipient passes. */
  lemma {:induction false} NoFailureIffAllPass(rs: seq<SendCoinsRecipient>, validateAddress: string -> bool)
    ensures FirstFailure(rs, validateAddress).None?
        <==> forall j | 0 <= j < |rs| :: validateAddress(rs[j].address) && rs[j].amount > 0
  {
    if rs != [] {
      NoFailureIffAllPass(rs[1..], validateAddress);
      if FirstFailure(rs, validateAddress).None? {
        forall j | 0 <= j < |rs|
          ensures validateAddress(rs[j].address) && rs[j].amount > 0
        {
          if j > 0 { assert rs[j] == rs[1..][j - 1]; }
        }
      } else if RecipientError(rs[0], validateAddress).None? {
        var j :| 0 <= j < |rs[1..]| && !(validateAddress(rs[1..][j].address) && rs[1..][j].amount > 0);
        assert rs[j + 1] == rs[1..][j];
      }
    }
  }

  /** The address set of `rs` is the set of its recipients' addresses. */
  lemma {:induction false} AddressesMembership(rs: seq<SendCoinsRecipient>)
    ensures forall a :: a in Addresses(rs) <==> exists i | 0 <= i < |rs| :: rs[i].address == a
  {
    if rs != [] {
      var init := rs[..|rs| - 1];
      AddressesMembership(init);
      forall a | a in Addresses(rs)
        ensures exists i | 0 <= i < |rs| :: rs[i].address == a
      {
        if a in Addresses(init) {
          var i :| 0 <= i < |init| && init[i].address == a;
          assert rs[i] == init[i];
        } else {
          assert rs[|rs| - 1].address == a;
        }
      }
      forall a, i | 0 <= i < |rs| && rs[i].address == a
        ensures a in Addresses(rs)
      {
        if i < |rs| - 1 {
          assert init[i] == rs[i];
        }
      }
    }
  }

  /**
   * The set of addresses is smaller than the number of recipients exactly
   * when two recipients share an address: the source's set-size test detects
   * duplicates and nothing else.
   */
  lemma {:induction false} AddressCountDetectsDuplicates(rs: seq<SendCoinsRecipient>)
    ensures |Addresses(rs)| <= |rs|
    ensures |Addresses(rs)| < |rs| <==> HasDuplicateAddress(rs)
  {
    if rs != [] {
      var init := rs[..|rs| - 1];
      AddressCountDetectsDuplicates(init);
      DuplicateExtends(rs);
      AddressesMembership(init);
      if rs[|rs| - 1].address in Addresses(init) {
        var i :| 0 <= i < |init| && init[i].address == rs[|rs| - 1].address;
        assert rs[i] == init[i];
        assert HasDuplicateAddress(rs);
      } else {
        assert |Addresses(rs)| == |Addresses(init)| + 1;
      }
    }
  }

  /**
   * A duplicate among all recipients is a duplicate among all but the last,
   * or an earlier recipient sharing the last one's address.
   */
  lemma {:induction false} DuplicateExtends(rs: seq<SendCoinsRecipient>)
    requires rs != []
    ensures HasDuplicateAddress(rs) <==>
              || HasDuplicateAddress(rs[..|rs| - 1])
              || exists i | 0 <= i < |rs| - 1 :: rs[i].address == rs[|rs| - 1].address
  {
    var init := rs[..|rs| - 1];
    if HasDuplicateAddress(init) {
      var i, j :| 0 <= i < j < |init| && init[i].address == init[j].address;
      assert rs[i] == init[i] && rs[j] == init[j];
    }
    if HasDuplicateAddress(rs) {
      var i, j :| 0 <= i < j < |rs| && rs[i].address == rs[j].address;
      if j < |rs| - 1 {
        assert init[i] == rs[i] && init[j] == rs[j];
      }
    }
  }

  /**
   * Once every recipient passes: DuplicateAddress exactly when two
   * recipients share an address; otherwise AmountExceedsBalance exactly when
   * the total exceeds the balance; in both cases nothing is created.
   */
  lemma {:induction false} DuplicateThenBalance(rs: seq<SendCoinsRecipient>, validateAddress: string -> bool, nBalance: Amount,
                             createTransaction: seq<CRecipient> -> Creation, maxTxFee: Amount)
    requires rs != []
    requires forall j | 0 <= j < |rs| :: validateAddress(rs[j].address) && rs[j].amount > 0
    ensures var o := Prepare(rs, validateAddress, nBalance, createTransaction, maxTxFee);
            && (o.status == DuplicateAddress <==> HasDuplicateAddress(rs))
            && (!HasDuplicateAddress(rs) ==> (o.status == AmountExceedsBalance <==> Total(rs) > nBalance))
            && (o.status in {DuplicateAddress, AmountExceedsBalance} ==> o.fee.None? && o.reassignedAt.None?)
  {
    NoFailureIffAllPass(rs, validateAddress);
    AddressCountDetectsDuplicates(rs);
  }

  /**
   * When every check passes, the wallet is asked to create exactly the
   * recipients' outputs in order, and its answer decides: on failure
   * AmountWithFeeExceedsBalance if no recipient subtracts the fee and the
   * total plus fee exceeds the balance, else TransactionCreationFailed; on
   * success AbsurdFee exactly when the fee exceeds the cap, else OK. The fee
   * is always recorded, and amounts are reassigned exactly when creation
   * succeeded and some recipient subtracts the fee.
   */
  lemma {:induction false} CreationDecides(rs: seq<SendCoinsRecipient>, validateAddress: string -> bool, nBalance: Amount,
                        createTransaction: seq<CRecipient> -> Creation, maxTxFee: Amount)
    requires rs != []
    requires forall j | 0 <= j < |rs| :: validateAddress(rs[j].address) && rs[j].amount > 0
    requires !HasDuplicateAddress(rs)
    requires Total(rs) <= nBalance
    ensures var c := createTransaction(ToCRecipients(rs));
            var o := Prepare(rs, validateAddress, nBalance, createTransaction, maxTxFee);
            && (!c.fCreated ==> o.status == (if !AnySubtractsFee(rs) && Total(rs) + c.nFeeRequired > nBalance
                                             then AmountWithFeeExceedsBalance else TransactionCreationFailed))
            && (c.fCreated ==> (o.status == AbsurdFee <==> c.nFeeRequired > maxTxFee))
            && (c.fCreated ==> (o.status == OK <==> c.nFeeRequired <= maxTxFee))
            && o.fee == Some(c.nFeeRequired)
            && (o.reassignedAt.Some? <==> c.fCreated && AnySubtractsFee(rs))
  {
    NoFailureIffAllPass(rs, validateAddress);
    AddressCountDetectsDuplicates(rs);
  }

  /**
   * A non-empty request is OK exactly when every recipient has a valid
   * address and a positive amount, no address repeats, the total fits the
   * balance, and the wallet created the transaction at a fee within the cap.
   */
  lemma {:induction false} OkIffSendable(rs: seq<SendCoinsRecipient>, validateAddress: string -> bool, nBalance: Amount,
                      createTransaction: seq<CRecipient> -> Creation, maxTxFee: Amount)
    requires rs != []
    ensures Prepare(rs, validateAddress, nBalance, createTransaction, maxTxFee).status == OK
        <==> && (forall j | 0 <= j < |rs| :: validateAddress(rs[j].address) && rs[j].amount > 0)
             && !HasDuplicateAddress(rs)
             && Total(rs) <= nBalance
             && createTransaction(ToCRecipients(rs)).fCreated
             && createTransaction(ToCRecipients(rs)).nFeeRequired <= maxTxFee
  {
    NoFailureIffAllPass(rs, validateAddress);
    AddressCountDetectsDuplicates(rs);
    if && (forall j | 0 <= j < |rs| :: validateAddress(rs[j].address) && rs[j].amount > 0)
       && !HasDuplicateAddress(rs) && Total(rs) <= nBalance
    {
      CreationDecides(rs, validateAddress, nBalance, createTransaction, maxTxFee);
    }
  }
}
