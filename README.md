# btc-tx-scheduler, modelled in Dafny

btc-tx-scheduler builds Bitcoin transactions, keeps them as pending JSON files in a
`transactions` directory, and broadcasts each one once its scheduled time has come.
This project models three parts of that program:

- UTXO selection and output construction in `create_and_sign_bitcoin_transaction`.
  This is module `Create`, file `create.dfy`.
  - The function walks the sender addresses in order and appends their UTXOs to
    the inputs, keeping a running total, until `amount + fee` is covered.
  - It fails if the total falls short, or if a UTXO request fails.
  - It pays the recipient and sends any positive change to the first sender address.
  - Each input is signed with the key whose index is the first position of its
    address among the senders.
- The transaction directory of `file_manager.py`. This is module `FileManager`,
  file `file_manager.dfy`.
  - Class `TxDir` holds the directory as a map from file name to stored record.
  - Its methods save a record under the count-based `tx<k+1>.json` name, list the
    `tx*.json` files, and delete a file.
- The scheduled-broadcast tick and the manual broadcast and delete commands of
  `main.py`. This is module `Commands`, file `commands.dfy`.
  - A tick lists the store once, with one `now`.
  - It broadcasts every entry whose time is at or before `now`.
  - It deletes an entry exactly when the broadcast of that entry returned; a failed
    broadcast does not stop the loop.

Supporting modules:
- `Wrappers` (`wrappers.dfy`): `Option` and `Result`.
- `Timestamps` (`timestamps.dfy`): a parsed `datetime` as a six-field tuple, ordered
  lexicographically.
- `Decimal` (`decimal.dfy`): `str()` of a natural number, with a proof that it is
  injective.

The outside world enters as parameters:
- The UTXO request for the `i`-th sender address is the value `fetched[i]`. This is
  either the UTXO list or the failure the request raised.
- `broadcast_transaction` is an oracle. In a tick, `accept(i, hex)` says whether its
  `i`-th call returns. In the manual command, `accept(hex)` says the same.
- `datetime.strptime` is an oracle `parse` from the stored text to an optional
  `Timestamp`.
- `get_current_time()` is the parameter `now`, read once per tick.

Behaviour of the code that the model keeps as written:
- Duplicate sender addresses are requested again at every position where they
  occur. Their UTXOs are offered again, too (`Create.DuplicateSenderCountedTwice`).
  Each input's key index is the first position of its address.
- File names are not monotonic identifiers. They are recomputed from the number of
  files present, which lets a save overwrite a pending file (see Findings).
- `save_transaction` stores the scheduled time as text without checking it, and
  so does `main.create_transaction` in main.py, which passes the typed string
  straight through (main.py:26, 52). Only the entry point of create.py checks it
  with `strptime` before saving (create.py:88-92). A time saved through the first
  two paths that does not parse makes `load_transactions` raise, and neither the
  tick nor the auto-broadcast loop catches it. So one bad file ends the program
  before anything is broadcast.

The `break`s of the selection loops are modelled as returns from the method that
holds the loops. The first-fit stopping rule is stated by two predicates in
`Create`, `RequestsStopAt` and `FirstFit`, and each is proved to determine its
result uniquely.

## Model

| member | source | states |
|---|---|---|
| Create.CreateTransaction | create.py:9-46 | How many addresses are requested, as `RequestsStopAt` fixes it. A failed request fails the call with that address and reason, and only then. "Insufficient balance." is raised exactly when the UTXOs of the requested addresses fall short of `amount + fee`; when every request succeeds, that is exactly when the whole balance of all addresses falls short. Change with no sender address fails, exactly when there are no senders and `amount + fee < 0`. On success: the inputs are the first fit; the first output pays `amount` to the recipient; a second output returns `input_value - (amount + fee)` to `sender_addresses[0]` exactly when that is positive, and there is no other output; output values plus fee equal the input value; each key index is the first position of its input's address. |
| Create.SelectUtxos | create.py:10-38 | The selection loops and the balance check. Requests stop as `RequestsStopAt` says. The error is a `ProviderError` for the last requested address exactly when its request failed. It is `InsufficientBalance` exactly when the catalog of the requested addresses sums below the target. On success the inputs are the first-fit prefix of that catalog. |
| Create.TakeUtxos | create.py:24-33 | The inner loop for one address. If the target is covered: the inputs are the first fit of the catalog up to and including this address, requests stop after it, and its total is the running `input_value`. If not: the inputs are that whole catalog, still below the target. |
| Create.CoveredAt | create.py:31-35 | Once the `j`-th UTXO of address `n` first brings the total to the target, the selection is the first fit of the catalog up to address `n`, and no later address is requested. |
| Create.AllBelowTarget | create.py:32-35 | If the first `n` addresses fall short of the target, so does every shorter run of addresses. |
| Create.WholeBalanceDecides | create.py:37-38 | When all requests succeed, the requested addresses fall short exactly when all the addresses do. |
| Create.FirstFitUnique | create.py:24-35 | Two first-fit selections from the same candidates and target are equal. |
| Create.RequestsStopAtUnique | create.py:12-35 | The stopping rule fixes the number of requests. |
| Create.Outputs | create.py:40-44 | The outputs are the payment, plus change to `sender_addresses[0]` exactly when the change is positive. Output values plus fee equal the input value. Positive change with no sender address is the `IndexError`. |
| Create.DuplicateSenderCountedTwice | create.py:12-31 | An address listed twice has its UTXOs offered twice, and their value is counted twice. |
| Create.IndexOf | create.py:61 | `list.index`: a position holding the address, with no earlier position holding it. |
| Create.KeyIndices | create.py:60-61 | One key index per input: the first position of the input's address among the senders, within bounds. |
| Create.InputsFromSenders | create.py:24-30 | Every selected input carries one of the sender addresses, so `.index` finds it. |
| Create.CatalogAddresses | create.py:24-30 | Every candidate UTXO of the first `n` addresses is tagged with one of those addresses. |
| Create.CatalogPrefix | create.py:12-31 | The candidates of fewer addresses are a prefix of the candidates of more addresses. |
| Create.CatalogSumMonotone | create.py:12-31 | Requesting more addresses never lowers the running total, since UTXO values are non-negative. |
| Create.SumAppend | create.py:31 | The running total of two runs of inputs is the sum of their totals. |
| FileManager.TxFileName | file_manager.py:14 | `tx<n>.json` matches the glob `tx*.json`. |
| FileManager.TxFileNameInjective | file_manager.py:14 | Different numbers give different file names. |
| FileManager.NextName | file_manager.py:12-14 | The name `save_transaction` picks is `tx<k+1>.json`, where `k` counts the names matching `tx*.json`. |
| FileManager.CollisionAfterDelete | file_manager.py:12-16 | Save `tx1.json` and `tx2.json`, then delete `tx1.json`: the next save picks `tx2.json`, which is still pending. |
| FileManager.FreeNumberFrom | file_manager.py:13-14 | The first number from `n` upward whose file name is free, and every number before it is taken. |
| FileManager.FreshName | file_manager.py:12-14 | The corrected name is never a stored file. It equals the name `save_transaction` picks whenever that name is free. |
| FileManager.TxDir.constructor | file_manager.py:6 | The directory starts with the files it holds. |
| FileManager.TxDir.SaveAsWritten | file_manager.py:11-17 | Writes exactly `{signed_tx_hex, scheduled_time}` under `NextName` and changes no other name. If the name was present, the store keeps its size (an overwrite); otherwise it grows by one. |
| FileManager.TxDir.Save | file_manager.py:11-17 | The corrected save: a fresh name that was not present, the record stored exactly, no other name changed, one more file, and one more listed `tx*.json` file. |
| FileManager.TxDir.Load | file_manager.py:19-30 | Succeeds exactly when every listed file's time parses. A failure names a listed file whose time does not parse. On success the list has one element per `tx*.json` file, with distinct files, the stored hex unchanged and the parsed time. The store is not modified. |
| FileManager.TxDir.Delete | file_manager.py:32-33 | Removes exactly the given name and leaves all others unchanged. It reports failure (`unlink` raising) exactly when the name is absent. |
| Decimal.NatToString | file_manager.py:14 | `str()` of a natural number: non-empty digits, no leading zero except for 0 itself, one digit exactly below 10. |
| Decimal.NatToStringInjective | file_manager.py:14 | Different numbers have different decimal strings. |
| Commands.Due | main.py:84-85 | The entries whose time is at or before `now`, in list order. |
| Commands.CheckAndBroadcast | main.py:80-92 | The listing succeeds exactly when every `tx*.json` file's time parses; a failure names a file whose time does not parse. A listing failure is not caught: nothing is broadcast and the store is unchanged. Otherwise the store was listed once, and each due entry was broadcast once, in order, with its stored hex. The store after the tick is the store before, minus exactly the files whose broadcast returned. |
| Commands.BroadcastDue | main.py:84-92 | The loop over the listing. The attempts match the due entries position by position, and exactly the files whose broadcast returned are removed. |
| Commands.BroadcastOne | main.py:86-92 | One entry: its hex is broadcast. If that returns, its file is deleted; otherwise the store is unchanged. |
| Commands.RemovedMeans | main.py:88-89 | A file is removed by a tick exactly when some attempt on that file returned. |
| Commands.DueDistinct | main.py:84-85 | The due entries of a listing name distinct files. |
| Commands.NotDueKept | main.py:81-85 | After a tick, a stored file whose listed entry is not due, or that is not listed at all, is still present with the same record, and it was never broadcast. |
| Commands.AttemptResults | main.py:85-92 | An attempted file is gone after the tick exactly when its broadcast returned. A file whose broadcast failed keeps its record unchanged. |
| Commands.OnlyBroadcastRemoved | main.py:88-89 | No file is deleted unless a broadcast of that entry's hex returned. |
| Commands.EveryDueAttemptedOnce | main.py:84-92 | Every due listed entry is broadcast with its hex, even after earlier failures, and no file is broadcast twice in a tick. |
| Commands.BroadcastCli | main.py:64-78 | An unknown name: no broadcast and the store is unchanged. Otherwise the stored hex is broadcast and the file is deleted exactly when the broadcast returned. |
| Commands.DeleteCli | main.py:55-62 | Reports "not found" exactly when the name is absent, and removes exactly that name. |
| Commands.DueOrLater | main.py:85 | At one `now`, every listed entry is either due or strictly in the future, and never both. |
| Commands.DueStaysDue | main.py:82-85 | An entry due at one `now` is due at every later `now`. |
| Timestamps.AtOrBeforeTotal | main.py:85 | Any two parsed times are comparable with `<=`. |
| Timestamps.AtOrBeforeTransitive | main.py:85 | `<=` on parsed times is transitive. |

## Left out

- The signing half of create.py (lines 47-76) is not modelled: the JSON dumps of
  the unsigned and signed transaction, BIP-39/BIP-44 key derivation, and
  `Transaction.add_input/add_output/sign/raw_hex`. They are foreign cryptographic
  and serialisation libraries. Only the key index they are given is modelled.
- signer.py is not modelled: it only wraps foreign wallet libraries.
- HTTP requests to the block explorer and `broadcast_transaction`: broadcaster.py
  is not part of this model. These become the `fetched` sequence and the `accept`
  oracles. The model does not distinguish the three kinds of request failure,
  which carry the same `raise Exception`.
- `main.create_transaction`, `list_transactions`, the menu loop, `input()`,
  `print`, `sleep(60)` and `KeyboardInterrupt`. They are interactive I/O and float
  fee arithmetic. A tick is modelled once, not as wall-clock polling, and the
  messages printed are not modelled.
- Calendar validation and the text format of `datetime.strptime`. Parsing is the
  `parse` oracle, and times are ordered six-tuples.
- JSON encoding errors and a record without a `signed_tx_hex` key. A stored
  record is modelled as always well formed.
- Path semantics of `Path('transactions') / tx_id`: `..`, separators, a directory
  given as an id. A name is an opaque key of the map.
- The order in which `glob` lists files is not modelled. `Load` may list them in
  any order, and the tick is proved for every order.
- Concurrency: another process changing the directory during a tick. Without
  it, the delete after a successful broadcast always finds its file (this is
  proved), so a delete that raises inside the tick is not modelled.
- Commands.BroadcastCli: uses POSIX unlink semantics. `delete_transaction` runs
  while the file is still open for reading (main.py:68, 73). On Windows that
  unlink raises `PermissionError`, main.py:75 catches it, and the file stays after
  a broadcast that returned, so the next tick broadcasts it again. The model does
  not capture that platform-dependent outcome.
- Create.CreateTransaction: amounts and fees are unbounded integers. Satoshi
  values of UTXOs are non-negative. The float typing of `amount` in the
  interactive caller is not modelled.

## Findings

| source | as written | input that shows it | evidently intended | confidence | as-written member | corrected member |
|---|---|---|---|---|---|---|
| file_manager.py:12-16 | The new file is named `tx<k+1>.json`, where `k` counts the `tx*.json` files present, and it is opened with `'w'`. | Save twice (`tx1.json`, `tx2.json`), delete `tx1.json`, save again: the count is 1, so the third save overwrites the still-pending `tx2.json` and that transaction is lost. | A save never replaces a pending transaction: it uses the first free number from `k+1` upward. | not executed | FileManager.CollisionAfterDelete | FileManager.FreshName |
