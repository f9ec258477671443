# solray: transaction confirmation, authority keys, u64 codec and build paths in Dafny

This project models the decision logic of solray, a small helper library for
Solana programs, and proves properties of that model. There are five parts.

- **Confirmation settlement** (`confirmation.dfy`). `awaitTransactionSignatureConfirmation`
  races three sources: a timeout, a WebSocket signature subscription, and a polling loop
  over `getSignatureStatuses`. They share one `done` flag and one promise. The model is a
  class `ConfirmationRace` with the fields `done`, `subscribed` and `outcome`, and one
  method per event. `Run` folds those methods over any sequence of events. Each method is
  proved against the pure `Step` / `Replay` functions, and the lemmas about the race are
  stated on those functions. Promise semantics are explicit: only the first resolve or
  reject counts (`Settle`).
- **Failure diagnosis** (`diagnosis.dfy`). When confirmation is rejected, `sendTx` picks
  the message of the Error it throws. A timeout gives a fixed text. Otherwise the
  simulation's program logs are scanned backwards. The serialized simulation error is the
  next fallback, and `Transaction failed` is the last.
- **Authorities to account keys** (`authority.dfy`). `authsToKeys` / `authToKey` exist in
  both the TypeScript source and the compiled JavaScript. The file also has `instruction`
  and the buffer sizing of `instructionEncode`.
- **u64 little-endian codec and blob layouts** (`encoding.dfy`).
- **Build-output path rules** of the CLI builder (`build_utils.dfy`). These cover which
  `.so` file to take, where to copy it, and the SDK version comparison. The file system is
  replaced by inputs.

`wrappers.dfy` holds the shared `Option`, `Result` and `Byte` types and the
`StartsWith` / `EndsWith` string predicates.

Three behaviours of the code are worth stating on their own:

- A failed subscription setup ends the race without ever settling it (see Findings).
- Only the `Program log: ` prefix is stripped, so the example logs give
  `Transaction failed: failed: insufficient funds` (`InsufficientFundsExample`).
- `sendTx` waits forever when the promise stays pending (`SendResult.Hangs`).

## Model

| member | source | states |
|---|---|---|
| `Confirmation.IsConfirmed` | src/BaseProgram.ts:227 | a polled record counts as confirmed when its confirmation count is present and nonzero, or its status is `confirmed` or `finalized`; a zero or null count with any other status does not |
| `Confirmation.Step` | src/BaseProgram.ts:185-239 | the effect of one event: `done` is never cleared, a settled outcome never changes, the subscription flag never changes, and whenever the event settles the promise it also sets `done` |
| `Confirmation.ConfirmationRace.constructor` | src/BaseProgram.ts:182-211 | after setup the promise is pending; `done` is set exactly when `onSignature` threw, and only a successful setup leaves a subscription registered |
| `Confirmation.ConfirmationRace.OnTimeout` | src/BaseProgram.ts:185-192 | once `done` is set, the timeout changes nothing; before that it sets `done` and rejects with the timeout reason |
| `Confirmation.ConfirmationRace.OnNotification` | src/BaseProgram.ts:194-206 | the WebSocket callback sets `done` without checking it first; it rejects with the reported error or resolves when there is none, and a promise that has already settled keeps its outcome |
| `Confirmation.ConfirmationRace.OnPollResult` | src/BaseProgram.ts:215-234 | a poll answer is ignored once `done` is set or when there is no record; a record with `err` rejects with that error (checked before the confirmation count); a record that is not confirmed leaves the state unchanged; a record with a nonzero count or status `confirmed`/`finalized` resolves with it and sets `done` |
| `Confirmation.ConfirmationRace.OnPollError` | src/BaseProgram.ts:235-239 | a poll query that throws changes nothing, so it never settles the promise |
| `Confirmation.ConfirmationRace.Run` | src/BaseProgram.ts:183-244 | delivering events one by one gives the `Replay` of them and keeps the invariant (settled implies `done`, no subscription implies `done`) |
| `Confirmation.AwaitConfirmation` | src/BaseProgram.ts:177-247 | the final promise state is the `Replay` of the events; after a failed setup the promise is always pending; after a good setup, any event sequence containing the timeout settles it |
| `Confirmation.ReplayConsistent` | src/BaseProgram.ts:186-232 | every event sequence keeps the invariant: the promise only settles together with `done` |
| `Confirmation.ReplayKeepsDone` | src/BaseProgram.ts:189-231 | once `done` is set, no event clears it |
| `Confirmation.ReplayKeepsSettled` | src/BaseProgram.ts:183-244 | first settlement wins: no later event changes a settled outcome |
| `Confirmation.SettlesOnce` | src/BaseProgram.ts:183-244 | an outcome reached after some events is the outcome after any continuation of them (at most one settlement) |
| `Confirmation.LiveSettlesOnTimeout` | src/BaseProgram.ts:185-192 | from any state where `done` implies settled, every event sequence that contains the timeout ends settled |
| `Confirmation.SetupFailureNeverSettles` | src/BaseProgram.ts:208-212 | as written, after a failed setup no sequence of events changes the state at all; the promise stays pending |
| `Confirmation.InitIntended` | src/BaseProgram.ts:208-211 | the corrected setup leaves `done` unset and the promise pending |
| `Confirmation.IntendedSettlesOnTimeout` | src/BaseProgram.ts:185-192 | with the corrected setup the promise settles whenever the timeout fires, with or without a subscription |
| `Confirmation.IntendedPollAloneConfirms` | src/BaseProgram.ts:229-232 | with the corrected setup and no subscription, one confirmed poll record resolves the promise with that record |
| `Diagnosis.LastProgramLog` | src/BaseProgram.ts:91-99 | returns the text after `Program log: ` of a line that has that prefix, where no later line has it; returns nothing when no line has it |
| `Diagnosis.FailureMessage` | src/BaseProgram.ts:78-103 | the message of the Error `sendTx` throws for a rejection; its cases are proved in `FailureMessageCases` and `FailureMessageUsesLastLog`, and `Diagnose` computes it |
| `Diagnosis.SendTxResult` | src/BaseProgram.ts:76-109 | how `sendTx` ends for a given promise state; proved in `SendTxOutcome` |
| `Diagnosis.Diagnose` | src/BaseProgram.ts:78-103 | the backward index loop with early exit computes exactly `FailureMessage` |
| `Diagnosis.FailureMessageCases` | src/BaseProgram.ts:79-103 | a timeout gives `Timed out awaiting confirmation on transaction`; no simulation result or no `err` gives `Transaction failed`; an `err` with no program-log line gives the JSON of `err` |
| `Diagnosis.FailureMessageUsesLastLog` | src/BaseProgram.ts:92-97 | for any rejection error and any simulation `err`, the message is `Transaction failed: ` plus the rest of the last line that starts with `Program log: ` |
| `Diagnosis.InsufficientFundsExample` | src/BaseProgram.ts:90-101 | for the logs `Program log: step1`, `Program log: failed: insufficient funds`, `Program consumed...` the message is `Transaction failed: failed: insufficient funds`, whatever the rejection error and the simulation error are |
| `Diagnosis.SendTxOutcome` | src/BaseProgram.ts:76-109 | `sendTx` returns the signature exactly when the promise resolved, never returns while it is pending, and throws the timeout message on a timeout rejection |
| `Authority.AuthToKey` | lib/BaseProgram.js:59-75 | an Account gives its `publicKey` as a signer; a PublicKey gives itself as a non-signer; `isWritable` is passed through; anything else is the error `Invalid instruction authority. Expect Account \| PublicKey` |
| `Authority.KeysOfEntries` | src/BaseProgram.ts:150-168 | converting a flattened list succeeds exactly when no element is invalid; it then gives one key per element, in order, each as `authToKey` gives it |
| `Authority.KeysOf` | src/BaseProgram.ts:135-148 | `authsToKeys` as a value: on success, exactly one key per element of the flattened authorities (array length, or 1, per authority); any failure is the authority error |
| `Authority.PushKeys` | lib/BaseProgram.js:50-55 | for one authority: an array pushes one read-only key per element in order; `{write: x}` pushes a writable key; a plain authority pushes a read-only key; an invalid element throws |
| `Authority.AuthsToKeys` | lib/BaseProgram.js:47-58 | the loop over the authorities computes exactly the conversion of their flattened entries, including aborting on the first invalid element |
| `Authority.EntriesAppend` | src/BaseProgram.ts:138-147 | flattening preserves order: the entries of a concatenation are the concatenated entries |
| `Authority.EntriesLength` | src/BaseProgram.ts:138-146 | the number of keys is the sum over the authorities of (array length, or 1) |
| `Authority.KeysOfSucceeds` | src/BaseProgram.ts:138-167 | the conversion succeeds exactly when no element of any authority is invalid; one invalid element makes the whole call an error |
| `Authority.KeyAt` | src/BaseProgram.ts:135-168 | the key at position Count(first k authorities) + j comes from element j of authority k; its pubkey is that element's key; it is a signer exactly for an Account; it is writable exactly for `{write: x}`, so array keys never are |
| `Authority.Program.Instruction` | lib/BaseProgram.js:38-44 | the instruction keeps `data` unchanged, is addressed to `programID`, and carries `authsToKeys(authorities)`; an invalid authority makes it the authority error |
| `Authority.Program.InstructionEncode` | src/BaseProgram.ts:112-120 | the layout encodes into a zero-filled buffer of exactly the layout's `span` bytes, and the result is `instruction` of that buffer and the authorities, so keys and program id are as `Instruction` gives them |
| `Encoding.PublicKeyLayout` | lib/util/encoding.js:11-13 | the public-key layout is a 32-byte blob under the given property |
| `Encoding.Uint64Layout` | lib/util/encoding.js:18-20 | the uint64 layout is an 8-byte blob, named `uint64` by default |
| `Encoding.U64FromBuffer` | lib/util/encoding.js:22-24 | fails exactly when the buffer is shorter than 8 bytes; otherwise the value is below 2^64 and is the little-endian reading of bytes 0..7, with later bytes ignored |
| `Encoding.U64LEBuffer` | lib/util/encoding.js:26-30 | succeeds exactly for 0 <= n < 2^64 and then gives the 8-byte little-endian encoding of n; other values are a range error |
| `Encoding.U64LEBytes` | lib/util/encoding.js:26-30 | the output fills the uint64 layout, and byte i is (n / 256^i) % 256 |
| `Encoding.U64RoundTrip` | lib/util/encoding.js:22-30 | decoding the encoding of any n below 2^64 gives n |
| `Encoding.U64ReverseRoundTrip` | lib/util/encoding.js:22-30 | re-encoding the value decoded from a buffer of at least 8 bytes gives its first 8 bytes |
| `BuildUtils.Underscored` | bin/utils.js:32 | the preferred name keeps the program name's length and replaces every `-` by `_`, leaving every other character alone |
| `BuildUtils.FirstSoFile` | bin/utils.js:37-41 | picks the position of an entry ending in `.so` such that no earlier entry does; nothing when no entry ends in `.so` |
| `BuildUtils.SoFilePath` | bin/utils.js:29-47 | the preferred path when it exists; `''` when the listing throws; a path ending in `.so` when the listing has a `.so` entry; the profile directory itself when it has none |
| `BuildUtils.GetSoFilePath` | bin/utils.js:29-47 | the search loop that stops at the first `.so` entry computes `SoFilePath`: the preferred path when it exists, `''` when the listing throws |
| `BuildUtils.SoFilePathCases` | bin/utils.js:29-47 | the preferred path wins when it exists; otherwise the first `.so` entry joined to the profile directory; with no `.so` entry, the profile directory itself |
| `BuildUtils.MissingSoFileNotReported` | bin/utils.js:37-42 | as written, a listing without `.so` files yields the non-empty profile directory, so the builder goes on to copy |
| `BuildUtils.SoFilePathIntended` | bin/utils.js:37-42 | the corrected result is empty exactly when no `.so` file was found, and otherwise names a `.so` file |
| `BuildUtils.IntendedReportsMissingSoFile` | bin/utils.js:57-58 | with the corrected result, the builder skips the copy exactly when no `.so` file was found |
| `BuildUtils.Join` | bin/utils.js:42 | `path.join` of two segments: the result starts with the directory, ends with a non-empty name, and is the directory itself when the name is empty |
| `BuildUtils.Dirname` | bin/utils.js:64 | `path.dirname` (POSIX): trailing slashes are skipped; with no `/` left past the first character the result is `/` for a rooted path and `.` otherwise; a rooted path whose last `/` is its second character gives `//`; otherwise everything before the last `/` |
| `BuildUtils.DirnameExamples` | bin/utils.js:64 | `a/b/` gives `a`, `a/` gives `.`, `/a/` gives `/`, `a/b` gives `a`, `//a` gives `//`, `a//b` gives `a/`, and the empty path gives `.`, as Node's `path.dirname` does |
| `BuildUtils.OutputDir` | bin/utils.js:61-65 | `build` without a target; the target itself when it ends in `/` or has no `/`; otherwise its directory part (a proper prefix that ends just before the last `/`, or `/` or `//` for a rooted target) |
| `BuildUtils.OutputFile` | bin/utils.js:67 | the copy destination always ends in `.so`, and it is the target itself whenever the target ends in `.so` |
| `BuildUtils.BuildTarget` | bin/utils.js:57-67 | the builder copies exactly when the `.so` path is non-empty, from that path into the output directory and file |
| `BuildUtils.OutputFileInOutputDir` | bin/utils.js:67 | without a `.so` target, the destination is `program.so` (not underscored) inside the output directory |
| `BuildUtils.BareSoTargetIsAlsoTheDirectory` | bin/utils.js:61-67 | a target such as `out.so` with no `/` is both the directory that is created and the copy destination |
| `BuildUtils.VersionCapture` | bin/utils.js:99 | group 1 of `/^(.*)\s/` is the longest prefix with no line terminator that is followed by a white-space character; nothing when no such prefix exists |
| `BuildUtils.SdkVersionMatches` | bin/utils.js:92-100 | `checkBuildSdkVersion`: the channel against `v` plus the version captured from version.txt; its two cases are proved in `SdkVersionMatchesCapture` and `SdkVersionMatchesNoCapture` |
| `BuildUtils.SdkVersionMatchesCapture` | bin/utils.js:92-100 | the SDK check holds exactly when the channel equals `v` followed by that capture |
| `BuildUtils.SdkVersionMatchesNoCapture` | bin/utils.js:99 | with no capture, the channel is compared with `vundefined` |
| `BuildUtils.SdkVersionExample` | bin/utils.js:99 | version file `1.3.17` plus a newline matches channel `v1.3.17` |

## Left out

- Timers and real concurrency are not modelled: `setTimeout`, `sleep`, the 300 ms poll and rebroadcast periods, and the float-seconds deadline in `sendTx`. Events arrive as an explicit sequence, in any order the caller chooses.
- The background rebroadcast loop in `sendTx` (`sendRawTransaction` every 300 ms until `done`) is not modelled. It only resubmits bytes and never affects the outcome.
- Network calls are external: `getRecentBlockhash`, the initial `sendRawTransaction`, `onSignature`, `getSignatureStatuses` and `simulateTransaction`. A setup exception in `onSignature` becomes the `setupThrows` input. Query answers and failures become events. A simulation that throws becomes `None`. A failing initial submission simply propagates out of `sendTx`, and that path is not modelled.
- Transaction building, signing and serialisation (`Transaction`, `sign`, `serialize`) are library code and are not modelled.
- The `sendTx` of lib/BaseProgram.js is not modelled. It delegates wholly to web3's `sendAndConfirmTransaction`.
- `JSON.stringify` is the `stringify` parameter of the diagnosis functions. `layout.encode` is the `encode` parameter of `InstructionEncode`. Neither library function is modelled.
- Authority elements are a closed datatype. The TypeScript copy checks the constructor by name and the JavaScript copy checks constructor identity; both are modelled as the same tag. Any other non-null object is `Other` and gives the authority error. This includes a nested array and a `{write: x}` whose `x` is falsy.
- Authority.AuthToKey: `null` and `undefined` are not modelled. As a top-level authority, the read of `write` (src/BaseProgram.ts:143, lib/BaseProgram.js:54) throws a TypeError. As an array element, the read of `constructor` (src/BaseProgram.ts:153, lib/BaseProgram.js:60) throws one. In the TypeScript copy, an object without a `constructor` also throws a TypeError when `.name` is read. None of these is the authority error.
- Encoding.U64LEBuffer: the argument is an integer. A JavaScript Number where a BigInt is expected makes `writeBigUInt64LE` (lib/util/encoding.js:28) throw a TypeError, and this is not modelled.
- BuildUtils.SdkVersionMatches: the channel is a string or absent. The loose `==` at bin/utils.js:99 would also coerce a channel of another JSON type, so that `["v1.3.17"]` matches; this is not modelled.
- BuildUtils.Join: `Join("", "")` is `""` here, while Node's `path.join('', '')` is `.`. The builder never joins two empty segments.
- Authority.Program.InstructionEncode: requires `encode` to return as many bytes as the zero-filled buffer it is given, because a Node.js Buffer cannot grow.
- A ledger error object that itself has a truthy `timeout` field is treated as an ordinary error. The source's `err.timeout` test would mistake it for a timeout.
- `path.join` is a simple string function without Node's normalisation of `.`, `..` and repeated slashes. `path.dirname` follows Node's POSIX algorithm, which does not normalise either.
- JavaScript strings are sequences of UTF-16 code units. Here they are sequences of Unicode characters. The `\s` class is written out for the characters JavaScript lists.
- `toPath` is the empty string when the caller gives none. `undefined` and `''` behave identically in `runBuild`.
- `package.json` parsing (`JSON.parse`) is not modelled: the `testnetDefaultChannel` value is an input, `None` when absent.
- Shell and file-system side effects are not modelled: `exec`, `shell.cp`, `mkdirSync`, `rm`, the SDK installer, the `build` entry point that chooses between installing and checking, and the CLI in bin/solray.js.
- The wallet (lib/Wallet.js) is not part of this model. It wraps key-derivation libraries.
- Console logging throughout is not modelled.

## Findings

| source | as written | input that shows it | evidently intended | confidence | as-written member | corrected member |
|---|---|---|---|---|---|---|
| src/BaseProgram.ts:208-212 | when `onSignature` throws, the catch block sets `done`. The poll loop then never starts and the timeout handler returns early, so the promise never settles and `sendTx` never returns | `setupThrows = true` with events `[Timeout]` (or any other events): the outcome stays `Pending` | the race goes on by polling alone, and the timeout still rejects | high (not executed) | `Confirmation.SetupFailureNeverSettles` | `Confirmation.InitIntended` with `Confirmation.IntendedSettlesOnTimeout` |
| bin/utils.js:37-42 | with no `.so` entry in the listing, `soFile` stays `''` and `path.join(profilePath, '')` returns the profile directory. That is non-empty, so `runBuild`'s `if (soFilePath)` never reports the missing build output and the copy fails later with a misleading message | preferred file absent, listing `["libfoo.d", "deps"]`, profile path `target/release`: the result is `target/release` | `''` when no `.so` file is found, so the builder reports `Get built *.so file error` | medium (not executed) | `BuildUtils.MissingSoFileNotReported` | `BuildUtils.SoFilePathIntended` with `BuildUtils.IntendedReportsMissingSoFile` |
