/** Gas accounting over a block (core/gaspool.go, core/state_transition.go, core/state_processor.go, core/blockchain.go). */
module Gas {
  import opened Basics

  const MAX_UINT64: nat := WORD - 1
  const TX_GAS: nat := 21000
  const TX_GAS_CONTRACT_CREATION: nat := 53000
  const TX_DATA_NON_ZERO_GAS: nat := 16
  const TX_DATA_ZERO_GAS: nat := 4
  const ACCESS_LIST_ADDRESS_GAS: nat := 2400
  const ACCESS_LIST_STORAGE_KEY_GAS: nat := 1900
  const REFUND_QUOTIENT: nat := 5

  datatype GasError =
    | PreCheckFailed | InsufficientFunds | GasLimitReached
    | UintOverflow | BadOperation | IntrinsicGasTooLow | InsufficientFundsForTransfer

  // ---------- Intrinsic gas ----------

  /** What kind of transaction asks for its intrinsic gas. */
  datatype Kind = Plain | Creation | ValidatorSync | ValidatorMethod | ValidatorUnreadable

  function Count(data: seq<bv8>): nat {
    if data == [] then 0 else Count(data[..|data| - 1]) + (if data[|data| - 1] != 0 then 1 else 0)
  }

  function SumOf(s: seq<nat>): nat {
    if s == [] then 0 else SumOf(s[..|s| - 1]) + s[|s| - 1]
  }

  /** The price of the bytes, without any limit on its size. */
  function DataGas(data: seq<bv8>, kind: Kind): int {
    (if kind == Creation then TX_GAS_CONTRACT_CREATION else TX_GAS)
      + Count(data) * TX_DATA_NON_ZERO_GAS + (|data| - Count(data)) * TX_DATA_ZERO_GAS
  }

  /** Each entry of an access list gives its number of storage keys. */
  function AccessGas(accessList: seq<nat>): nat {
    |accessList| * ACCESS_LIST_ADDRESS_GAS + SumOf(accessList) * ACCESS_LIST_STORAGE_KEY_GAS
  }

  lemma {:induction false} CountBound(data: seq<bv8>)
    ensures Count(data) <= |data|
  {
    if data != [] {
      CountBound(data[..|data| - 1]);
    }
  }

  method CountNonZero(data: seq<bv8>) returns (nz: nat)
    ensures nz == Count(data)
  {
    nz := 0;
    for i := 0 to |data|
      invariant nz == Count(data[..i])
    {
      assert data[..i + 1][..i] == data[..i];
      if data[i] != 0 {
        nz := nz + 1;
      }
    }
    assert data[..|data|] == data;
  }

  /** Overflow is reported exactly when the price of the data does not fit; the access list is added without a check. */
  method IntrinsicGas(data: seq<bv8>, accessList: seq<nat>, kind: Kind) returns (r: Result<nat, GasError>)
    ensures kind == ValidatorUnreadable ==> r == Err(BadOperation)
    ensures kind == ValidatorSync ==> r == Ok(0)
    ensures kind in {Plain, Creation, ValidatorMethod} ==>
      if DataGas(data, kind) > MAX_UINT64 then r == Err(UintOverflow)
      else r == Ok((DataGas(data, kind) + AccessGas(accessList)) % WORD)
  {
    if kind == ValidatorUnreadable {
      return Err(BadOperation);
    }
    if kind == ValidatorSync {
      return Ok(0);
    }
    var gas := if kind == Creation then TX_GAS_CONTRACT_CREATION else TX_GAS;
    CountBound(data);
    if |data| > 0 {
      var nz := CountNonZero(data);
      Exceeds(gas, nz);
      if (MAX_UINT64 - gas) / TX_DATA_NON_ZERO_GAS < nz {
        return Err(UintOverflow);
      }
      gas := gas + nz * TX_DATA_NON_ZERO_GAS;
      var z := |data| - nz;
      Exceeds(gas, z);
      if (MAX_UINT64 - gas) / TX_DATA_ZERO_GAS < z {
        return Err(UintOverflow);
      }
      gas := gas + z * TX_DATA_ZERO_GAS;
    }
    var keys := StorageKeys(accessList);
    assert gas == DataGas(data, kind);
    Wrap(gas + |accessList| * ACCESS_LIST_ADDRESS_GAS, keys * ACCESS_LIST_STORAGE_KEY_GAS);
    gas := (gas + |accessList| * ACCESS_LIST_ADDRESS_GAS) % WORD;
    gas := (gas + keys * ACCESS_LIST_STORAGE_KEY_GAS) % WORD;
    return Ok(gas);
  }

  /** The guards against overflow are exact. */
  lemma Exceeds(gas: nat, n: nat)
    requires gas <= MAX_UINT64
    ensures (MAX_UINT64 - gas) / TX_DATA_NON_ZERO_GAS < n <==> gas + n * TX_DATA_NON_ZERO_GAS > MAX_UINT64
    ensures (MAX_UINT64 - gas) / TX_DATA_ZERO_GAS < n <==> gas + n * TX_DATA_ZERO_GAS > MAX_UINT64
  {
  }

  method StorageKeys(accessList: seq<nat>) returns (sum: nat)
    ensures sum == SumOf(accessList)
  {
    sum := 0;
    for i := 0 to |accessList|
      invariant sum == SumOf(accessList[..i])
    {
      assert accessList[..i + 1][..i] == accessList[..i];
      sum := sum + accessList[i];
    }
    assert accessList[..|accessList|] == accessList;
  }

  // ---------- The gas pool and one transaction ----------

  class GasPool {
    var gas: nat

    constructor (limit: nat)
      ensures gas == limit
    {
      gas := limit;
    }

    /** Not `ok` is the panic of the source: the sum does not fit into 64 bits. */
    method AddGas(amount: nat) returns (ok: bool)
      modifies this
      ensures ok <==> old(gas) + amount <= MAX_UINT64
      ensures gas == if ok then old(gas) + amount else old(gas)
    {
      if gas + amount > MAX_UINT64 {
        return false;
      }
      gas := gas + amount;
      return true;
    }

    method SubGas(amount: nat) returns (ok: bool)
      modifies this
      ensures ok <==> old(gas) >= amount
      ensures gas == if ok then old(gas) - amount else old(gas)
    {
      if gas < amount {
        return false;
      }
      gas := gas - amount;
      return true;
    }
  }

  /** A transaction together with what the state and the virtual machine answer for it. */
  datatype Message = Message(
    gas: nat,
    preCheck: bool,          // nonce, sender and fee checks pass
    funds: bool,             // the sender can pay for the gas
    data: seq<bv8>, accessList: seq<nat>, kind: Kind,
    canTransfer: bool,
    decodes: bool,           // a token operation in the data can be read
    left: nat -> nat,        // gas the execution leaves of what it is given
    refund: nat              // the refund counter afterwards
  )

  ghost predicate Executable(m: Message) {
    m.gas <= MAX_UINT64 && forall g :: m.left(g) <= g
  }

  datatype Outcome = Used(gas: nat) | NotBought(error: GasError) | Burnt(error: GasError)

  /** Intrinsic gas has no value: the data is too dear or the operation cannot be read. */
  predicate NoIntrinsic(m: Message) {
    m.kind == ValidatorUnreadable || (m.kind != ValidatorSync && DataGas(m.data, m.kind) > MAX_UINT64)
  }

  /** What execution cannot use: nothing for a validator synchronisation. */
  function Intrinsic(m: Message): int {
    if m.kind == ValidatorSync then 0 else (DataGas(m.data, m.kind) + AccessGas(m.accessList)) % WORD
  }

  /** What a transaction takes out of the pool for good. */
  function Taken(m: Message, r: Outcome): nat {
    match r
    case Used(gas) => gas
    case NotBought(_) => 0
    case Burnt(_) => m.gas
  }

  class StateTransition {
    const gp: GasPool
    const msg: Message
    var gas: nat
    var initialGas: nat

    constructor (gp: GasPool, msg: Message)
      ensures this.gp == gp && this.msg == msg && gas == 0 && initialGas == 0
    {
      this.gp, this.msg := gp, msg;
      gas, initialGas := 0, 0;
    }

    method BuyGas() returns (r: Option<GasError>)
      requires gas == 0
      modifies this, gp
      ensures r == (if !msg.funds then Some(InsufficientFunds) else if old(gp.gas) < msg.gas then Some(GasLimitReached) else None)
      ensures if r == None then gp.gas == old(gp.gas) - msg.gas && gas == initialGas == msg.gas
              else gp.gas == old(gp.gas)
    {
      if !msg.funds {
        return Some(InsufficientFunds);
      }
      var ok := gp.SubGas(msg.gas);
      if !ok {
        return Some(GasLimitReached);
      }
      gas := gas + msg.gas;
      initialGas := msg.gas;
      return None;
    }

    /** Returns the unused gas to the pool; at most a fifth of what was used is refunded. */
    method RefundGas()
      requires gas <= initialGas && gp.gas + initialGas <= MAX_UINT64
      modifies this`gas, gp
      ensures gas - old(gas) == Refund(initialGas - old(gas), msg.refund)
      ensures gas <= initialGas && gp.gas == old(gp.gas) + gas
    {
      var refund := (initialGas - gas) / REFUND_QUOTIENT;
      if refund > msg.refund {
        refund := msg.refund;
      }
      gas := gas + refund;
      var ok := gp.AddGas(gas);
      assert ok;
    }

    method TransitionDb() returns (r: Outcome)
      requires Executable(msg) && gas == 0 && gp.gas <= MAX_UINT64
      modifies this, gp
      ensures r.NotBought? <==> !msg.preCheck || !msg.funds || old(gp.gas) < msg.gas
      ensures r == NotBought(GasLimitReached) <==> msg.preCheck && msg.funds && old(gp.gas) < msg.gas
      ensures r.Burnt? <==> !r.NotBought? && (msg.gas < Intrinsic(msg) || NoIntrinsic(msg) || !msg.canTransfer || !msg.decodes)
      ensures r.Used? ==>
        var spent := msg.gas - msg.left(msg.gas - Intrinsic(msg));
        0 <= spent <= msg.gas && r.gas == spent - Refund(spent, msg.refund)
      ensures gp.gas == old(gp.gas) - Taken(msg, r) && Taken(msg, r) <= msg.gas
    {
      hide DataGas, AccessGas, Refund;
      if !msg.preCheck {
        return NotBought(PreCheckFailed);
      }
      var bought := BuyGas();
      if bought.Some? {
        return NotBought(bought.value);
      }
      var intrinsic := IntrinsicGas(msg.data, msg.accessList, msg.kind);
      if intrinsic.Err? {
        return Burnt(intrinsic.error);
      }
      if msg.kind != ValidatorSync {
        if gas < intrinsic.value {
          return Burnt(IntrinsicGasTooLow);
        }
        gas := gas - intrinsic.value;
      }
      if !msg.canTransfer {
        return Burnt(InsufficientFundsForTransfer);
      }
      if !msg.decodes {
        return Burnt(BadOperation);
      }
      gas := msg.left(gas);
      ghost var spent := initialGas - gas;
      RefundGas();
      assert initialGas - gas == spent - Refund(spent, msg.refund);
      return Used(initialGas - gas);
    }
  }

  /** The refund of the section "Specification" of EIP-3529: the counter, capped at a fifth of the gas used. */
  function Refund(spent: int, counter: nat): (r: int)
    requires spent >= 0
    ensures r <= counter && 5 * r <= spent && 0 <= r
  {
    if spent / REFUND_QUOTIENT > counter then counter else spent / REFUND_QUOTIENT
  }

  // ---------- A whole block ----------

  function GasLimits(msgs: seq<Message>): seq<nat> {
    seq(|msgs|, i requires 0 <= i < |msgs| => msgs[i].gas)
  }

  ghost function TotalUsed(results: seq<Outcome>): nat {
    if results == [] then 0 else
      TotalUsed(results[..|results| - 1]) + (if results[|results| - 1].Used? then results[|results| - 1].gas else 0)
  }

  /** Gas bought by transactions that failed afterwards. */
  ghost function TotalBurnt(msgs: seq<Message>, results: seq<Outcome>): nat
    requires |results| <= |msgs|
  {
    if results == [] then 0 else
      var k := |results| - 1;
      TotalBurnt(msgs, results[..k]) + (if results[k].Burnt? then msgs[k].gas else 0)
  }

  /** Nothing is lost: pool, used and burnt gas always add up to the limit.
      When the gas of all transactions fits the limit, none of them hits it. */
  method CommitBlockTransactions(limit: nat, msgs: seq<Message>) returns (pool: GasPool, gasUsed: nat, results: seq<Outcome>)
    requires limit <= MAX_UINT64 && forall i :: 0 <= i < |msgs| ==> Executable(msgs[i])
    ensures fresh(pool) && |results| == |msgs|
    ensures gasUsed == TotalUsed(results)
    ensures pool.gas + gasUsed + TotalBurnt(msgs, results) == limit
    ensures SumOf(GasLimits(msgs)) <= limit ==> NotBought(GasLimitReached) !in results
    ensures forall i :: 0 <= i < |msgs| && msgs[i].preCheck && msgs[i].funds && limit < msgs[i].gas ==> results[i] == NotBought(GasLimitReached)
  {
    pool := new GasPool(limit);
    gasUsed, results := 0, [];
    for i := 0 to |msgs|
      invariant fresh(pool) && |results| == i
      invariant gasUsed == TotalUsed(results)
      invariant pool.gas + gasUsed + TotalBurnt(msgs, results) == limit
      invariant limit <= pool.gas + SumOf(GasLimits(msgs)[..i])
      invariant SumOf(GasLimits(msgs)) <= limit ==> NotBought(GasLimitReached) !in results
      invariant forall j :: 0 <= j < i && msgs[j].preCheck && msgs[j].funds && limit < msgs[j].gas ==> results[j] == NotBought(GasLimitReached)
    {
      SumStep(GasLimits(msgs), i);
      var st := new StateTransition(pool, msgs[i]);
      var r := st.TransitionDb();
      gasUsed := gasUsed + (if r.Used? then r.gas else 0);
      assert (results + [r])[..i] == results;
      results := results + [r];
    }
    assert GasLimits(msgs)[..|msgs|] == GasLimits(msgs);
  }

  lemma SumStep(s: seq<nat>, i: nat)
    requires i < |s|
    ensures SumOf(s[..i + 1]) == SumOf(s[..i]) + s[i] <= SumOf(s)
  {
    assert s[..i + 1][..i] == s[..i];
    SumPrefix(s, i + 1);
  }

  lemma {:induction false} SumPrefix(s: seq<nat>, i: nat)
    requires i <= |s|
    ensures SumOf(s[..i]) <= SumOf(s)
  {
    if i == |s| {
      assert s[..i] == s;
    } else {
      var front := s[..|s| - 1];
      SumPrefix(front, i);
      assert front[..i] == s[..i];
    }
  }

  /** The sum of the gas limits is taken in 64 bits. */
  method VerifyBlockUsedGas(limit: nat, gases: seq<nat>) returns (ok: bool)
    requires limit <= MAX_UINT64
    ensures ok <==> SumOf(gases) % WORD <= limit
  {
    var sum := 0;
    for i := 0 to |gases|
      invariant sum == SumOf(gases[..i]) % WORD
    {
      assert gases[..i + 1][..i] == gases[..i];
      Wrap(SumOf(gases[..i]), gases[i]);
      sum := (sum + gases[i]) % WORD;
    }
    assert gases[..|gases|] == gases;
    return sum <= limit;
  }

  lemma Wrap(a: nat, b: nat)
    ensures (a % WORD + b) % WORD == (a + b) % WORD
  {
    var q := a / WORD;
    assert a == q * WORD + a % WORD;
    Shift(a % WORD + b, q);
  }

  lemma {:induction false} Shift(a: nat, q: nat)
    ensures (a + q * WORD) % WORD == a % WORD
  {
    if q > 0 {
      Shift(a, q - 1);
      assert (a + (q - 1) * WORD) + WORD == a + q * WORD;
    }
  }

  /** Acceptance means the block fits, exactly when the sum does not overflow. */
  lemma AcceptedFits(limit: nat, gases: seq<nat>)
    requires limit <= MAX_UINT64 && SumOf(gases) % WORD <= limit
    ensures SumOf(gases) <= limit <==> SumOf(gases) <= MAX_UINT64
  {
  }

  /** Two transactions whose gas limits wrap to zero: the block passes the check, and both hit its gas limit. */
  method OverflowPasses() returns (ok: bool, results: seq<Outcome>)
    ensures ok && results == [NotBought(GasLimitReached), NotBought(GasLimitReached)]
  {
    var half := 0x8000_0000_0000_0000;
    var m := Message(half, true, true, [], [], Plain, true, true, (_: nat) => 0, 0);
    WrapsToZero(half);
    assert GasLimits([m, m]) == [half, half];
    ok := VerifyBlockUsedGas(30_000_000, GasLimits([m, m]));
    var pool, gasUsed;
    pool, gasUsed, results := CommitBlockTransactions(30_000_000, [m, m]);
  }

  lemma WrapsToZero(half: nat)
    requires 2 * half == WORD
    ensures SumOf([half, half]) % WORD == 0
  {
    var gases := [half, half];
    assert gases[..1][..0] == [] && gases[..1][0] == half;
    assert SumOf(gases[..1]) == half;
    assert SumOf(gases) == SumOf(gases[..1]) + gases[1];
  }
}
