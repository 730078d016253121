# NEP-5 wallet token logic and the dBFT PrepareResponse payload, in Dafny

This project models two small pieces of a NEO-style blockchain node written in Go.

- **The dBFT PrepareResponse payload.** The message carries one 32-byte preparation hash. It is
  serialised by writing the raw hash bytes to a binary writer. It is deserialised by reading 32
  bytes from a binary reader back into the receiver's field. It also has a getter and a setter.
  The model is a `PrepareResponse` class with a 32-byte field. The writer is a class with a
  growing byte buffer. The reader is a class with a fixed input, a read position and a sticky
  error flag. `EncodeHash`/`DecodeHash` are the functional view of the wire form; the methods
  are proved against them, and a round-trip lemma relates the two.
- **The NEP-5 wallet command logic.** This covers four rules:
  - the token-selection loop (`getMatchingTokenAux`), which skips nil slots, counts tokens whose
    name, symbol, address or little-endian hash string equals the query, and stops at the second
    match;
  - the "token already exists" duplicate check on import;
  - the balance filter of the balance listing;
  - the fixed order of the instructions emitted for a `transfer` call.

  The callback `get(i)` over `n` slots is a sequence of optional tokens; nil is `None`.
  `Hash.StringLE()` is a function-valued parameter `stringLE`. The selection loop is proved
  against a reference function `SelectToken`, and lemmas characterise `SelectToken` by
  quantifiers in both directions. The transfer script is a list of abstract instructions.
  `ParseTransfer` is its inverse.

Modules: `Wrappers` (Option, Result), `Bytes` (byte, `Hash`, `Uint160`), `BinIO` (writer and
reader), `Consensus` (the payload), `Nep5Wallet` (the wallet command logic).

## Model

| member | source | states |
|---|---|---|
| Consensus.EncodeHash | pkg/consensus/prepare_response.go:10-12 | the wire form of the payload is always exactly 32 bytes, whatever the hash value |
| Consensus.DecodeHash | pkg/consensus/prepare_response.go:22-24 | a hash can be read at a position exactly when 32 bytes remain there |
| Consensus.DecodeEncodeHash | pkg/consensus/prepare_response.go:17-24 | decoding the bytes encoded for h, at their offset in any surrounding stream, yields h |
| Consensus.EncodeDecodeHash | pkg/consensus/prepare_response.go:17-24 | encoding a decoded hash reproduces exactly the 32 input bytes it was read from |
| Consensus.EncodeHashInjective | pkg/consensus/prepare_response.go:17-19 | two hashes encode alike iff they are equal, and every encoding has the same length |
| Consensus.PrepareResponse.constructor | pkg/consensus/prepare_response.go:10-12 | a fresh payload holds the zero hash (Go's zero value) |
| Consensus.PrepareResponse.PreparationHash | pkg/consensus/prepare_response.go:27 | the getter is a pure read returning the stored hash |
| Consensus.PrepareResponse.SetPreparationHash | pkg/consensus/prepare_response.go:27-30 | after the setter the getter returns h; only the hash field may change |
| Consensus.PrepareResponse.EncodeBinary | pkg/consensus/prepare_response.go:17-19 | the writer's buffer becomes the old buffer followed by exactly the 32 hash bytes in order; the payload is unchanged |
| Consensus.PrepareResponse.DecodeBinary | pkg/consensus/prepare_response.go:22-24 | the read fails iff the reader had already failed or fewer than 32 bytes remained; on success the position advances by exactly 32 and the field holds those bytes in order |
| Consensus.RoundTrip | pkg/consensus/prepare_response.go:17-30 | set h, encode into an empty writer, decode from a reader over the output into a fresh payload: the read succeeds, consumes all 32 written bytes, and the getter returns h |
| Consensus.SetTwiceIsSetOnce | pkg/consensus/prepare_response.go:30 | setting the same hash twice leaves the same hash as setting it once |
| BinIO.BinWriter.WriteBytes | pkg/consensus/prepare_response.go:18 | the writer appends the given bytes to its buffer in order and nothing else |
| BinIO.BinReader.ReadBytes | pkg/consensus/prepare_response.go:23 | a read of k bytes fails (sticky) iff the reader had failed or fewer than k bytes remained; on success it yields the next k input bytes and advances by k |
| Nep5Wallet.Matches | cli/wallet/nep5.go:161 | a token matches iff the query is one of its name, symbol, address or little-endian hash string |
| Nep5Wallet.SlotMatches | cli/wallet/nep5.go:160-161 | a nil slot never matches; a matching slot holds a token |
| Nep5Wallet.LastMatch | cli/wallet/nep5.go:159-169 | the token the loop keeps is present iff some slot matches; it matches the query and sits in a slot after which no slot matches |
| Nep5Wallet.SelectToken | cli/wallet/nep5.go:156-175 | the selection never reports an RPC failure; a selected token is a non-nil slot's token and matches the query |
| Nep5Wallet.NoMatchIff | cli/wallet/nep5.go:159-161 | the match count is zero iff no slot holds a matching token |
| Nep5Wallet.TwoMatchesIff | cli/wallet/nep5.go:159-166 | the match count is at least two iff two distinct slots match |
| Nep5Wallet.SingleMatchAt | cli/wallet/nep5.go:167-174 | with one match, the kept token sits at an index that no other matching slot shares |
| Nep5Wallet.MatchCountPrefix | cli/wallet/nep5.go:159-166 | the matches within a prefix of the slots never exceed those of all slots, so stopping early at the second match is sound |
| Nep5Wallet.SelectNotFound | cli/wallet/nep5.go:171-173 | "token was not found" iff no slot holds a non-nil matching token; always with zero slots |
| Nep5Wallet.SelectMultiple | cli/wallet/nep5.go:162-166 | "multiple matching tokens found" iff two distinct slots match |
| Nep5Wallet.SelectFound | cli/wallet/nep5.go:159-174 | t is returned without error iff t is in the one and only matching slot and matches the query |
| Nep5Wallet.GetMatchingTokenAux | cli/wallet/nep5.go:156-175 | the loop's result equals SelectToken; it fetches every slot unless it stops, and it stops right after the second matching slot |
| Nep5Wallet.GetMatchingToken | cli/wallet/nep5.go:138-142 | lookup over the wallet's token list is the selection over those tokens |
| Nep5Wallet.GetMatchingTokenRpc | cli/wallet/nep5.go:144-154 | a failed balance query gives an RPC error; otherwise the loop's result over the node's per-balance token info is the selection over those slots |
| Nep5Wallet.ResolveToken | cli/wallet/nep5.go:109-119 | the wallet's selection is used when it succeeds; otherwise the node's result is used, with its error; a returned token matches the query |
| Nep5Wallet.WalletSlots | cli/wallet/nep5.go:139-141 | the wallet's token list seen as slots: one non-nil slot per wallet token, in order |
| Nep5Wallet.CheckImport | cli/wallet/nep5.go:189-194 | the import is refused iff some wallet token has the requested hash, showing the first such token; the token list is never changed |
| Nep5Wallet.BalancesOf | cli/wallet/nep5.go:126-130 | every kept balance has the selected asset and none is added |
| Nep5Wallet.BalancesOfMember | cli/wallet/nep5.go:126-130 | a balance is kept iff it is one of the input's and its asset is the selected hash |
| Nep5Wallet.BalancesOfAppend | cli/wallet/nep5.go:126-134 | the filter distributes over concatenation, so relative order is kept |
| Nep5Wallet.BalancesOfAll | cli/wallet/nep5.go:126-130 | the filter keeps all balances iff every balance has the selected asset |
| Nep5Wallet.ListedBalances | cli/wallet/nep5.go:126-134 | with an empty token name every balance is listed in order; otherwise exactly those of the selected token's asset, in order |
| Nep5Wallet.GetNep5Balance | cli/wallet/nep5.go:109-135 | with no name, all fetched balances (or an RPC error); with a name, the resolved token's error if the lookup fails, else an RPC error if the balance fetch fails, else Ok with exactly the resolved token's balances in order |
| Nep5Wallet.TransferScript | cli/wallet/nep5.go:264-272 | a transfer script has eight instructions, starts by pushing the amount and app-calls the token hash without a tail call |
| Nep5Wallet.ParseTransfer | cli/wallet/nep5.go:264-272 | only an eight-instruction script can be recognised as a transfer call |
| Nep5Wallet.ParseTransferScript | cli/wallet/nep5.go:264-272 | the transfer script is recognised and yields exactly its amount, to, from and token hash |
| Nep5Wallet.TransferScriptOfParsed | cli/wallet/nep5.go:264-272 | any script recognised as a transfer is the transfer script of the arguments it yields |
| Nep5Wallet.ScriptWriter.Emit | cli/wallet/nep5.go:264-272 | each emit appends one instruction to the script buffer |
| Nep5Wallet.BuildTransferScript | cli/wallet/nep5.go:264-272 | emits amount, to bytes, from bytes, the integer 3, PACK, "transfer", a non-tail app-call to the token hash, THROWIFNOT, in that order; the script parses back to its arguments |

## Left out

- The byte encoding done by the io package is not modelled. `BinWriter` is a growing byte buffer with no error flag.
- `BinIO.BinReader.ReadBytes`: a failed read sets the error flag, but the model does not say what the destination holds afterwards or where the position ends up. The io package is not part of this model, so those details are not invented.
- `Consensus.PrepareResponse.DecodeBinary`: the contract says nothing about the field after a failed read, for the reason given for `ReadBytes`.
- `Hash.StringLE()` is a parameter. Its hex encoding belongs to the util package, which is not part of this model.
- `util.Uint160` is represented by its 20 big-endian bytes, so `BytesBE()` is that sequence. The type's internal byte order is not modelled.
- The wallet's token list has no nil entries. A nil entry would make the import loop dereference nil (cli/wallet/nep5.go:190), and the model does not cover that crash.
- The RPC calls `GetNEP5Balances` and `NEP5TokenInfo` become parameters, as do opening the wallet, resolving the address and account, and creating the client. `getMatchingTokenRPC` queries the balances itself, and the listing at cli/wallet/nep5.go:121 queries them again; the model treats the two answers as independent inputs.
- The import decodes the `--token` string with `util.Uint160DecodeStringLE` and fails on a malformed one (cli/wallet/nep5.go:184-187); `CheckImport` takes the decoded hash. The `fmt.Println` calls at cli/wallet/nep5.go:250 and 304 are output only.
- After the duplicate check the import queries the node, adds the token and saves the wallet (cli/wallet/nep5.go:196-214). These are RPC and file I/O and are not modelled.
- `printTokenInfo` and every `fmt.Printf` (cli/wallet/nep5.go:131-133, 163-164, 191, 217-223) are formatting side effects. Which balances are printed is modelled as the listed sequence.
- In `transferNEP5`, the following are I/O, key custody or foreign code and are not modelled: amount parsing with `util.FixedNFromString`, the GAS amount, the transaction attribute, `AddInputsAndUnspentsToTx`, password reading, decryption, signing and sending (cli/wallet/nep5.go:257-260, 274-305). The amount is an unbounded integer, not an int64.
- The byte encoding produced by the `emit` helpers is not modelled. The script is a list of abstract instructions.
- The CLI flag tables in `newNEP5Commands` (cli/wallet/nep5.go:21-82) are declarations with no logic.
- pkg/wire/util/fixed8/fixed8.go goes through float64 and is not modelled. pkg/core/interop/evm.go only fills go-ethereum configuration structures and is not modelled.
- The consensus state machine, quorum logic and view changes are not part of this model. Only the PrepareResponse payload is.
