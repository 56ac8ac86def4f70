/**
 * `create_and_sign_bitcoin_transaction` of create.py, up to the point where the
 * transaction is handed to the foreign signing library: UTXO selection across
 * the sender addresses, the insufficiency check, the outputs with optional
 * change, and the key index chosen for each input.
 */
module Create {
  import opened Wrappers

  /** One element of the explorer's UTXO list for an address; satoshi values are non-negative. */
  datatype Utxo = Utxo(txid: string, vout: int, value: nat)

  /** What the UTXO request for one sender address produced. */
  datatype Fetch = Fetched(utxos: seq<Utxo>) | FetchFailed(reason: string)

  /** A selected input: the UTXO and the sender address it was listed for. */
  datatype TxInput = TxInput(txid: string, vout: int, value: nat, address: string)

  datatype TxOutput = TxOutput(address: string, value: int)

  /**
   * The exceptions the function raises before signing: a failed UTXO request
   * (non-200 status, network error or undecodable JSON), "Insufficient balance.",
   * and the IndexError of `sender_addresses[0]` when there is change but no sender.
   */
  datatype BuildError = ProviderError(address: string, reason: string) | InsufficientBalance | NoChangeAddress

  /** `inputs` and `outputs` as handed to the signer, with each input's key index. */
  datatype UnsignedTx = UnsignedTx(inputs: seq<TxInput>, outputs: seq<TxOutput>, keyIndex: seq<nat>)

  function Tagged(utxos: seq<Utxo>, address: string): seq<TxInput>
  {
    seq(|utxos|, i requires 0 <= i < |utxos| => TxInput(utxos[i].txid, utxos[i].vout, utxos[i].value, address))
  }

  lemma TaggedStep(utxos: seq<Utxo>, address: string, j: nat)
    requires j < |utxos|
    ensures Tagged(utxos[..j + 1], address) ==
            Tagged(utxos[..j], address) + [TxInput(utxos[j].txid, utxos[j].vout, utxos[j].value, address)]
  {
  }

  lemma TaggedPrefix(utxos: seq<Utxo>, address: string, j: nat)
    requires j <= |utxos|
    ensures Tagged(utxos[..j], address) == Tagged(utxos, address)[..j]
  {
  }

  function Listed(f: Fetch): seq<Utxo>
  {
    if f.Fetched? then f.utxos else []
  }

  /** The candidate inputs of the first `n` sender addresses, address by address, in the explorer's order. */
  function Catalog(senders: seq<string>, fetched: seq<Fetch>, n: nat): seq<TxInput>
    requires |fetched| == |senders| && n <= |senders|
  {
    if n == 0 then [] else Catalog(senders, fetched, n - 1) + Tagged(Listed(fetched[n - 1]), senders[n - 1])
  }

  function Sum(s: seq<TxInput>): int
  {
    if s == [] then 0 else Sum(s[..|s| - 1]) + s[|s| - 1].value
  }

  function SumOutputs(s: seq<TxOutput>): int
  {
    if s == [] then 0 else SumOutputs(s[..|s| - 1]) + s[|s| - 1].value
  }

  lemma SumStep(s: seq<TxInput>, x: TxInput)
    ensures Sum(s + [x]) == Sum(s) + x.value
  {
    assert (s + [x])[..|s|] == s;
  }

  lemma {:induction false} SumAppend(a: seq<TxInput>, b: seq<TxInput>)
    ensures Sum(a + b) == Sum(a) + Sum(b)
    decreases |b|
  {
    if b != [] {
      var c := a + b;
      assert c[..|c| - 1] == a + b[..|b| - 1];
      assert c[|c| - 1] == b[|b| - 1];
      assert Sum(c) == Sum(c[..|c| - 1]) + c[|c| - 1].value;
      assert Sum(b) == Sum(b[..|b| - 1]) + b[|b| - 1].value;
      SumAppend(a, b[..|b| - 1]);
    } else {
      assert a + b == a;
    }
  }

  /** UTXO values are non-negative, so a longer prefix never sums to less. */
  lemma {:induction false} SumPrefixMonotone(s: seq<TxInput>, j: nat, k: nat)
    requires j <= k <= |s|
    ensures Sum(s[..j]) <= Sum(s[..k])
    decreases k - j
  {
    if j < k {
      assert s[..k][..k - 1] == s[..k - 1];
      SumPrefixMonotone(s, j, k - 1);
    }
  }

  lemma SumPrefixAtMost(s: seq<TxInput>, j: nat)
    requires j <= |s|
    ensures Sum(s[..j]) <= Sum(s)
  {
    SumPrefixMonotone(s, j, |s|);
    assert s[..|s|] == s;
  }

  /** The candidates of more addresses never sum to less. */
  lemma CatalogSumMonotone(senders: seq<string>, fetched: seq<Fetch>, m: nat, n: nat)
    requires |fetched| == |senders| && m <= n <= |senders|
    ensures Sum(Catalog(senders, fetched, m)) <= Sum(Catalog(senders, fetched, n))
  {
    var a, b := Catalog(senders, fetched, m), Catalog(senders, fetched, n);
    CatalogPrefix(senders, fetched, m, n);
    SamePrefix(a, b, b);
    SumPrefixAtMost(b, |a|);
  }

  lemma {:induction false} CatalogPrefix(senders: seq<string>, fetched: seq<Fetch>, m: nat, n: nat)
    requires |fetched| == |senders| && m <= n <= |senders|
    ensures Catalog(senders, fetched, m) <= Catalog(senders, fetched, n)
    decreases n - m
  {
    if m < n {
      CatalogPrefix(senders, fetched, m, n - 1);
    }
  }

  /** Every candidate input of the first `n` addresses belongs to one of them. */
  lemma {:induction false} CatalogAddresses(senders: seq<string>, fetched: seq<Fetch>, n: nat)
    requires |fetched| == |senders| && n <= |senders|
    ensures forall x :: x in Catalog(senders, fetched, n) ==> x.address in senders[..n]
  {
    if n > 0 {
      CatalogAddresses(senders, fetched, n - 1);
      assert senders[..n - 1] <= senders[..n];
    }
  }

  lemma InputsFromSenders(senders: seq<string>, fetched: seq<Fetch>, n: nat, inputs: seq<TxInput>)
    requires |fetched| == |senders| && n <= |senders|
    requires inputs <= Catalog(senders, fetched, n)
    ensures forall i :: 0 <= i < |inputs| ==> inputs[i].address in senders
  {
    CatalogAddresses(senders, fetched, n);
    forall i | 0 <= i < |inputs|
      ensures inputs[i].address in senders
    {
      assert inputs[i] in Catalog(senders, fetched, n);
      assert inputs[i].address in senders[..n];
    }
  }

  /**
   * A sender address given twice is requested twice, and its UTXOs are offered
   * twice: the selection can count, and spend, the same UTXO two times.
   */
  lemma DuplicateSenderCountedTwice(address: string, utxos: seq<Utxo>)
    ensures var c := Catalog([address, address], [Fetched(utxos), Fetched(utxos)], 2);
            c == Tagged(utxos, address) + Tagged(utxos, address) && Sum(c) == 2 * Sum(Tagged(utxos, address))
  {
    var t := Tagged(utxos, address);
    assert Catalog([address, address], [Fetched(utxos), Fetched(utxos)], 1) == t;
    SumAppend(t, t);
  }

  /** `sender_addresses.index(address)`: the first position holding `address`. */
  function IndexOf(senders: seq<string>, address: string): (j: nat)
    requires address in senders
    ensures j < |senders| && senders[j] == address
    ensures forall k :: 0 <= k < j ==> senders[k] != address
  {
    if senders[0] == address then 0 else 1 + IndexOf(senders[1..], address)
  }

  /** The loop that derives one key per input, by the position of its address among the senders. */
  method KeyIndices(senders: seq<string>, inputs: seq<TxInput>) returns (keyIndex: seq<nat>)
    requires forall i :: 0 <= i < |inputs| ==> inputs[i].address in senders
    ensures |keyIndex| == |inputs|
    ensures forall i :: 0 <= i < |inputs| ==> keyIndex[i] < |senders| && senders[keyIndex[i]] == inputs[i].address
    ensures forall i, k :: 0 <= i < |inputs| && 0 <= k < keyIndex[i] ==> senders[k] != inputs[i].address
  {
    keyIndex := [];
    for i := 0 to |inputs|
      invariant |keyIndex| == i
      invariant forall m :: 0 <= m < i ==> keyIndex[m] == IndexOf(senders, inputs[m].address)
    {
      keyIndex := keyIndex + [IndexOf(senders, inputs[i].address)];
    }
  }

  /**
   * Where the requests stop: an address is requested only while the addresses
   * before it were fetched and their UTXOs do not cover `target`; the requests
   * end at the last address, at the first failed request, or as soon as the
   * target is covered.
   */
  ghost predicate RequestsStopAt(senders: seq<string>, fetched: seq<Fetch>, target: int, requested: nat)
    requires |fetched| == |senders|
  {
    && requested <= |senders|
    && (forall i :: 0 <= i < requested - 1 ==> fetched[i].Fetched?)
    && (forall i :: 0 < i < requested ==> Sum(Catalog(senders, fetched, i)) < target)
    && (requested < |senders| ==>
          0 < requested && (fetched[requested - 1].FetchFailed? || Sum(Catalog(senders, fetched, requested)) >= target))
  }

  /**
   * First fit: `inputs` is the prefix of `candidates` that stops at the first UTXO
   * bringing the total to `target`. At least one UTXO is taken when there is one,
   * even when `target <= 0`.
   */
  ghost predicate FirstFit(inputs: seq<TxInput>, candidates: seq<TxInput>, target: int)
  {
    && inputs <= candidates
    && Sum(inputs) >= target
    && (forall j :: 0 < j < |inputs| ==> Sum(inputs[..j]) < target)
    && (inputs == [] ==> candidates == [])
  }

  /** The stopping rule fixes the number of requests. */
  lemma RequestsStopAtUnique(senders: seq<string>, fetched: seq<Fetch>, target: int, m: nat, n: nat)
    requires |fetched| == |senders|
    requires RequestsStopAt(senders, fetched, target, m) && RequestsStopAt(senders, fetched, target, n)
    ensures m == n
  {
  }

  /** First fit picks one prefix: the selection is determined by the candidates and the target. */
  lemma FirstFitUnique(a: seq<TxInput>, b: seq<TxInput>, candidates: seq<TxInput>, target: int)
    requires FirstFit(a, candidates, target) && FirstFit(b, candidates, target)
    ensures a == b
  {
    if |a| <= |b| {
      SamePrefix(a, b, candidates);
    } else {
      SamePrefix(b, a, candidates);
    }
  }

  /** Two prefixes of one sequence: the shorter is a prefix of the longer. */
  lemma SamePrefix(a: seq<TxInput>, b: seq<TxInput>, c: seq<TxInput>)
    requires a <= c && b <= c && |a| <= |b|
    ensures b[..|a|] == a
  {
  }

  /**
   * When every request succeeds, the selection falls short exactly when the
   * balance of all sender addresses does.
   */
  lemma WholeBalanceDecides(senders: seq<string>, fetched: seq<Fetch>, target: int, requested: nat)
    requires |fetched| == |senders|
    requires forall i :: 0 <= i < |senders| ==> fetched[i].Fetched?
    requires RequestsStopAt(senders, fetched, target, requested)
    ensures Sum(Catalog(senders, fetched, requested)) < target <==> Sum(Catalog(senders, fetched, |senders|)) < target
  {
    CatalogSumMonotone(senders, fetched, requested, |senders|);
  }

  /** The inputs once the first `n` addresses are used up and `j` UTXOs of address `n` are taken. */
  function Selection(senders: seq<string>, fetched: seq<Fetch>, n: nat, j: nat): seq<TxInput>
    requires |fetched| == |senders| && n < |senders| && j <= |Listed(fetched[n])|
  {
    Catalog(senders, fetched, n) + Tagged(Listed(fetched[n])[..j], senders[n])
  }

  lemma SelectionStep(senders: seq<string>, fetched: seq<Fetch>, n: nat, j: nat)
    requires |fetched| == |senders| && n < |senders| && j < |Listed(fetched[n])|
    ensures var u := Listed(fetched[n])[j];
            Selection(senders, fetched, n, j + 1) == Selection(senders, fetched, n, j) + [TxInput(u.txid, u.vout, u.value, senders[n])]
  {
    TaggedStep(Listed(fetched[n]), senders[n], j);
  }

  lemma SelectionEnds(senders: seq<string>, fetched: seq<Fetch>, n: nat)
    requires |fetched| == |senders| && n < |senders|
    ensures Selection(senders, fetched, n, 0) == Catalog(senders, fetched, n)
    ensures Selection(senders, fetched, n, |Listed(fetched[n])|) == Catalog(senders, fetched, n + 1)
  {
    var u := Listed(fetched[n]);
    assert u[..0] == [] && u[..|u|] == u;
  }

  lemma SelectionPrefix(senders: seq<string>, fetched: seq<Fetch>, n: nat, j: nat)
    requires |fetched| == |senders| && n < |senders| && j <= |Listed(fetched[n])|
    ensures Selection(senders, fetched, n, j) <= Catalog(senders, fetched, n + 1)
  {
    TaggedPrefix(Listed(fetched[n]), senders[n], j);
  }

  /** The targets missed before the last request are missed by every earlier request. */
  lemma AllBelowTarget(senders: seq<string>, fetched: seq<Fetch>, target: int, n: nat)
    requires |fetched| == |senders| && n <= |senders|
    requires n > 0 ==> Sum(Catalog(senders, fetched, n)) < target
    ensures forall i :: 0 < i <= n ==> Sum(Catalog(senders, fetched, i)) < target
  {
    forall i | 0 < i <= n
      ensures Sum(Catalog(senders, fetched, i)) < target
    {
      CatalogSumMonotone(senders, fetched, i, n);
    }
  }

  /**
   * The `j`-th UTXO of address `n` brings the total to the target for the first
   * time: requests stop after address `n`, and the inputs are the first fit.
   */
  lemma CoveredAt(senders: seq<string>, fetched: seq<Fetch>, target: int, n: nat, j: nat)
    requires |fetched| == |senders| && n < |senders| && 0 < j <= |Listed(fetched[n])|
    requires forall i :: 0 <= i <= n ==> fetched[i].Fetched?
    requires n > 0 ==> Sum(Catalog(senders, fetched, n)) < target
    requires Selection(senders, fetched, n, j - 1) == [] || Sum(Selection(senders, fetched, n, j - 1)) < target
    requires Sum(Selection(senders, fetched, n, j)) >= target
    ensures RequestsStopAt(senders, fetched, target, n + 1)
    ensures Sum(Catalog(senders, fetched, n + 1)) >= target
    ensures FirstFit(Selection(senders, fetched, n, j), Catalog(senders, fetched, n + 1), target)
  {
    CoveredStops(senders, fetched, target, n, j);
    CoveredFirstFit(senders, fetched, target, n, j);
  }

  lemma CoveredStops(senders: seq<string>, fetched: seq<Fetch>, target: int, n: nat, j: nat)
    requires |fetched| == |senders| && n < |senders| && j <= |Listed(fetched[n])|
    requires forall i :: 0 <= i <= n ==> fetched[i].Fetched?
    requires n > 0 ==> Sum(Catalog(senders, fetched, n)) < target
    requires Sum(Selection(senders, fetched, n, j)) >= target
    ensures RequestsStopAt(senders, fetched, target, n + 1)
    ensures Sum(Catalog(senders, fetched, n + 1)) >= target
  {
    var inputs, all := Selection(senders, fetched, n, j), Catalog(senders, fetched, n + 1);
    AllBelowTarget(senders, fetched, target, n);
    SelectionPrefix(senders, fetched, n, j);
    SamePrefix(inputs, all, all);
    SumPrefixAtMost(all, |inputs|);
  }

  lemma CoveredFirstFit(senders: seq<string>, fetched: seq<Fetch>, target: int, n: nat, j: nat)
    requires |fetched| == |senders| && n < |senders| && 0 < j <= |Listed(fetched[n])|
    requires Selection(senders, fetched, n, j - 1) == [] || Sum(Selection(senders, fetched, n, j - 1)) < target
    requires Sum(Selection(senders, fetched, n, j)) >= target
    ensures FirstFit(Selection(senders, fetched, n, j), Catalog(senders, fetched, n + 1), target)
  {
    var before, inputs := Selection(senders, fetched, n, j - 1), Selection(senders, fetched, n, j);
    SelectionPrefix(senders, fetched, n, j);
    SelectionStep(senders, fetched, n, j - 1);
    assert inputs[..|inputs| - 1] == before;
    forall k | 0 < k < |inputs|
      ensures Sum(inputs[..k]) < target
    {
      SumPrefixAtMost(before, k);
      assert before[..k] == inputs[..k];
    }
  }

  /**
   * The loops over `sender_addresses` and their UTXOs, with their `break`s, and
   * the balance check after them; the call returns as soon as the target is covered.
   */
  method SelectUtxos(senders: seq<string>, fetched: seq<Fetch>, target: int)
    returns (r: Result<seq<TxInput>, BuildError>, requested: nat)
    requires |fetched| == |senders|
    ensures RequestsStopAt(senders, fetched, target, requested)
    ensures r.Failure? ==> r.error.ProviderError? || r.error == InsufficientBalance
    ensures r.Failure? && r.error.ProviderError? <==> 0 < requested && fetched[requested - 1].FetchFailed?
    ensures r.Failure? && r.error.ProviderError? ==>
              r.error == ProviderError(senders[requested - 1], fetched[requested - 1].reason)
    ensures r == Failure(InsufficientBalance) <==>
              (requested == 0 || fetched[requested - 1].Fetched?) && Sum(Catalog(senders, fetched, requested)) < target
    ensures r.Success? ==> FirstFit(r.value, Catalog(senders, fetched, requested), target)
  {
    var inputs: seq<TxInput> := [];
    var inputValue := 0;
    requested := 0;
    while requested < |senders|
      invariant requested <= |senders|
      invariant inputs == Catalog(senders, fetched, requested)
      invariant inputValue == Sum(inputs)
      invariant forall i :: 0 <= i < requested ==> fetched[i].Fetched?
      invariant requested > 0 ==> inputValue < target
    {
      var n := requested;
      requested := requested + 1;
      if fetched[n].FetchFailed? {
        AllBelowTarget(senders, fetched, target, n);
        r := Failure(ProviderError(senders[n], fetched[n].reason));
        return;
      }
      var covered;
      inputs, inputValue, covered := TakeUtxos(senders, fetched, target, n, inputs, inputValue);
      if covered {
        r := Success(inputs);
        return;
      }
      if inputValue >= target {
        // only when no UTXO was needed: the first address has none and the target is not positive
        assert inputs == [] && n == 0;
        r := Success(inputs);
        return;
      }
    }
    AllBelowTarget(senders, fetched, target, requested);
    if inputValue < target {
      r := Failure(InsufficientBalance);
    } else {
      // no sender address at all, and a target that is not positive
      assert requested == 0 && inputs == [];
      r := Success(inputs);
    }
  }

  /**
   * The inner loop for sender address `n`: append its UTXOs one by one to the
   * inputs gathered from the earlier addresses, stopping (`covered`) at the first
   * one that brings the total to the target.
   */
  method TakeUtxos(senders: seq<string>, fetched: seq<Fetch>, target: int, n: nat, inputs: seq<TxInput>, inputValue: int)
    returns (taken: seq<TxInput>, value: int, covered: bool)
    requires |fetched| == |senders| && n < |senders|
    requires forall i :: 0 <= i <= n ==> fetched[i].Fetched?
    requires inputs == Catalog(senders, fetched, n) && inputValue == Sum(inputs)
    requires n > 0 ==> inputValue < target
    ensures value == Sum(taken)
    ensures covered ==> && RequestsStopAt(senders, fetched, target, n + 1)
                        && Sum(Catalog(senders, fetched, n + 1)) >= target
                        && FirstFit(taken, Catalog(senders, fetched, n + 1), target)
    ensures !covered ==> taken == Catalog(senders, fetched, n + 1) && (taken == [] || value < target)
  {
    var utxos := Listed(fetched[n]);
    SelectionEnds(senders, fetched, n);
    taken, value := inputs, inputValue;
    var j := 0;
    while j < |utxos|
      invariant j <= |utxos|
      invariant taken == Selection(senders, fetched, n, j)
      invariant value == Sum(taken)
      invariant taken == [] || value < target
    {
      var input := TxInput(utxos[j].txid, utxos[j].vout, utxos[j].value, senders[n]);
      SelectionStep(senders, fetched, n, j);
      SumStep(taken, input);
      taken := taken + [input];
      value := value + utxos[j].value;
      j := j + 1;
      assert taken == Selection(senders, fetched, n, j);
      if value >= target {
        CoveredAt(senders, fetched, target, n, j);
        return taken, value, true;
      }
    }
    covered := false;
  }

  /**
   * The outputs for a selection worth `inputValue`: the payment, and the change
   * back to the first sender address when it is positive. With no sender address
   * that change has nowhere to go and `sender_addresses[0]` raises.
   */
  method Outputs(senders: seq<string>, recipient: string, amount: int, fee: int, inputValue: int)
    returns (r: Result<seq<TxOutput>, BuildError>)
    requires inputValue >= amount + fee
    ensures r.Failure? <==> |senders| == 0 && inputValue > amount + fee
    ensures r.Failure? ==> r.error == NoChangeAddress
    ensures r.Success? ==> |r.value| == if inputValue > amount + fee then 2 else 1
    ensures r.Success? ==> r.value[0] == TxOutput(recipient, amount)
    ensures r.Success? && inputValue > amount + fee ==> r.value[1] == TxOutput(senders[0], inputValue - (amount + fee))
    ensures r.Success? ==> SumOutputs(r.value) + fee == inputValue
  {
    var outputs := [TxOutput(recipient, amount)];
    assert outputs[..0] == [];
    assert SumOutputs(outputs) == amount;
    var payment := outputs;
    var change := inputValue - (amount + fee);
    if change > 0 {
      if |senders| == 0 {
        r := Failure(NoChangeAddress);
        return;
      }
      outputs := outputs + [TxOutput(senders[0], change)];
      assert outputs[..1] == payment;
    }
    r := Success(outputs);
  }

  /**
   * `create_and_sign_bitcoin_transaction` up to signing. `fetched[i]` is what the
   * UTXO request for `senders[i]` produces; `requested` counts the requests made.
   */
  method CreateTransaction(senders: seq<string>, fetched: seq<Fetch>, recipient: string, amount: int, fee: int)
    returns (r: Result<UnsignedTx, BuildError>, requested: nat)
    requires |fetched| == |senders|
    ensures RequestsStopAt(senders, fetched, amount + fee, requested)
    // the error cases
    ensures r.Failure? && r.error.ProviderError? <==> 0 < requested && fetched[requested - 1].FetchFailed?
    ensures r.Failure? && r.error.ProviderError? ==>
              r.error == ProviderError(senders[requested - 1], fetched[requested - 1].reason)
    ensures r == Failure(InsufficientBalance) <==>
              (requested == 0 || fetched[requested - 1].Fetched?) && Sum(Catalog(senders, fetched, requested)) < amount + fee
    ensures r == Failure(NoChangeAddress) <==> |senders| == 0 && amount + fee < 0
    // when every request succeeds, the balance of all addresses decides
    ensures (forall i :: 0 <= i < |senders| ==> fetched[i].Fetched?) ==>
              (r == Failure(InsufficientBalance) <==> Sum(Catalog(senders, fetched, |senders|)) < amount + fee)
    // the inputs, the outputs and conservation of value
    ensures r.Success? ==> FirstFit(r.value.inputs, Catalog(senders, fetched, requested), amount + fee)
    ensures r.Success? ==> 1 <= |r.value.outputs| <= 2 && (|r.value.outputs| == 2 <==> Sum(r.value.inputs) > amount + fee)
    ensures r.Success? ==> r.value.outputs[0] == TxOutput(recipient, amount)
    ensures r.Success? && |r.value.outputs| == 2 ==>
              r.value.outputs[1] == TxOutput(senders[0], Sum(r.value.inputs) - (amount + fee))
    ensures r.Success? ==> SumOutputs(r.value.outputs) + fee == Sum(r.value.inputs)
    // each input is signed with the key of the first position of its address
    ensures r.Success? ==>
              && |r.value.keyIndex| == |r.value.inputs|
              && (forall i :: 0 <= i < |r.value.inputs| ==>
                    r.value.keyIndex[i] < |senders| && senders[r.value.keyIndex[i]] == r.value.inputs[i].address)
              && (forall i, k :: 0 <= i < |r.value.inputs| && 0 <= k < r.value.keyIndex[i] ==>
                    senders[k] != r.value.inputs[i].address)
  {
    var selected;
    selected, requested := SelectUtxos(senders, fetched, amount + fee);
    if (forall i :: 0 <= i < |senders| ==> fetched[i].Fetched?) {
      WholeBalanceDecides(senders, fetched, amount + fee, requested);
    }
    if selected.Failure? {
      r := Failure(selected.error);
      return;
    }
    var inputs := selected.value;
    var inputValue := Sum(inputs);
    var outputs := Outputs(senders, recipient, amount, fee, inputValue);
    if outputs.Failure? {
      r := Failure(outputs.error);
      return;
    }
    InputsFromSenders(senders, fetched, requested, inputs);
    var keyIndex := KeyIndices(senders, inputs);
    r := Success(UnsignedTx(inputs, outputs.value, keyIndex));
  }
}
