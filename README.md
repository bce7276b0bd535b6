# Bitcoin burnchain indexer: a Dafny model

This project models the core of the Bitcoin "burnchain" indexer of blockstack-ng, written in Rust.
That core has four parts:

- **Configuration and connection setup** (`src/burnchains/bitcoin/indexer.rs`). Loading the
  `[bitcoin]` section of `bitcoin.ini` fills each key from the file or its default, with trim,
  parse and range checks whose error strings come in a fixed order. A network name maps to its
  32-bit magic. The `BitcoinIndexer` object's `setup`, `connect` and `reconnect_peer` overwrite
  its configuration, its runtime and its socket slot.
- **The error taxonomy** (`src/burnchains/bitcoin/mod.rs`). The closed `Error` enum with
  `description`, `cause` and `Display`.
- **The SPV header store** (`src/burnchains/bitcoin/spv.rs`). A flat file of 81-byte header records.
  Its height is `len / 81 - 1`, the record at height h is read at offset 81·h, and an append must be
  internally contiguous and chain to the tip. Apart from the record size, this code is an unfinished,
  commented-out sketch. The model follows what its doc comments and formulas say it is meant to do.
- **The driver loop** (`src/main.rs`). The `do_handshake` flag, and how each iteration reacts to
  the classified results of handshake, receive and handle.

The Dafny modules follow the source files: `BitcoinError` (mod.rs), `Indexer` (indexer.rs),
`Spv` (spv.rs) and `Driver` (main.rs). There are two helper modules. `Text` holds the parts of
Rust's string library that the loader uses (`str::trim`, unsigned `parse`, `format!("{}")`).
`Wrappers` holds `Option` and `Result`.

All effects outside the program become inputs to the model:

- the file system is a map from paths to the INI files at them (a path is a file exactly when it
  is a key);
- the home directory is a string parameter;
- the TCP connect is an oracle `canConnect(host, port)`;
- the random handshake nonce is a parameter;
- the header hash (double SHA-256 in the bitcoin library) is a function the header store is built with;
- the peer's behaviour in the driver loop is a finite trace of per-iteration outcomes.

Three choices of the model deserve a note:

- A missing header file makes `get_headers_height` fail. The sketch returns the bare `fs::metadata`
  error (spv.rs:39-42), which does not fit its `Result<u64, net_error>` type; the model wraps it as
  `FilesystemError`, as `read_block_header` does with `map_err(net_error::FilesystemError)` (spv.rs:52). Height -1 is reported only for an
  existing file with no whole record in it, as the doc comment at spv.rs:36-37 says.
- The sketch of `append_block_headers` breaks off before it says which error a broken chain gives.
  The `Error` enum (mod.rs:40-63) has no variant for it, and the model reports it as
  `InvalidReply`, the variant for a peer's reply that cannot be accepted.
- `recv_message` returning `UnhandledMessage` is fatal in `main` (main.rs:59-60). Only
  `handle_message`'s `UnhandledMessage` is tolerated (main.rs:43-45).

## Model

| member | source | states |
|---|---|---|
| `BitcoinError.Cause` | src/burnchains/bitcoin/mod.rs:83-96 | `cause` is `Some` exactly for `Io`, `SerializationError` and `FilesystemError`, and it is the wrapped error. |
| `BitcoinError.Description` | src/burnchains/bitcoin/mod.rs:98-112 | A wrapping variant's description is the wrapped error's description. (The unit variants' fixed texts are in its body; `UnitDescriptionsDistinct` proves them pairwise distinct.) |
| `BitcoinError.Display` | src/burnchains/bitcoin/mod.rs:65-80 | A unit variant displays exactly its description. A wrapping variant displays the wrapped error's own display text. |
| `BitcoinError.UnitVariantsAreTheUnits` | src/burnchains/bitcoin/mod.rs:40-63 | The eight listed unit variants are exactly the variants that wrap nothing. |
| `BitcoinError.UnitDescriptionsDistinct` | src/burnchains/bitcoin/mod.rs:101-109 | The descriptions of the eight unit variants are pairwise distinct. |
| `BitcoinError.UnitDisplayInjective` | src/burnchains/bitcoin/mod.rs:69-76 | Two unit variants that display the same text are the same variant. |
| `Text.TrimStart` | src/burnchains/bitcoin/indexer.rs:106 | The leading part of `trim`: it cuts only whitespace, and the result does not start with whitespace. |
| `Text.TrimEnd` | src/burnchains/bitcoin/indexer.rs:114 | The trailing part of `trim`: it cuts only whitespace, and the result does not end with whitespace. |
| `Text.Trim` | src/burnchains/bitcoin/indexer.rs:106 | `trim` never lengthens the text, and what it keeps neither starts nor ends with whitespace. |
| `Text.TrimSlice` | src/burnchains/bitcoin/indexer.rs:114 | What `trim` keeps is one contiguous slice of the text, and everything cut off before and after it is whitespace. |
| `Text.TrimPadded` | src/burnchains/bitcoin/indexer.rs:128 | Any whitespace around a value trims back to the value. |
| `Text.ParseUnsigned` | src/burnchains/bitcoin/indexer.rs:104-106 | Unsigned `parse` accepts exactly an optional `+` followed by one or more digits whose value fits the type, and then yields that value (so "+08332" and "08332" give 8332). It rejects empty text, a lone `+` and any `-`. |
| `Text.Decimal` | src/burnchains/bitcoin/indexer.rs:105 | `format!("{}", n)` is a nonempty digit string with no leading zero. |
| `Text.DecimalValue` | src/burnchains/bitcoin/indexer.rs:113 | The digits that `format!` produces have the formatted value. |
| `Text.ParseDecimal` | src/burnchains/bitcoin/indexer.rs:112-114 | Parsing a formatted value that fits the type gives the value back. |
| `Text.TrimDecimal` | src/burnchains/bitcoin/indexer.rs:126-127 | Trimming a formatted number leaves it unchanged. |
| `Indexer.PushPath` | src/burnchains/bitcoin/indexer.rs:68-70 | `PathBuf::push` of a relative component adds a `/` when the base is nonempty and does not end in one, and adds only the component otherwise. |
| `Indexer.DefaultConfig` | src/burnchains/bitcoin/indexer.rs:67-80 | The default configuration has two distinct ports that both pass the loader's range check, and a timeout of 30. |
| `Indexer.DefaultSpvPath` | src/burnchains/bitcoin/indexer.rs:68-70 | The default headers file is `.blockstack-core/bitcoin-spv-headers.dat` under the home directory, with exactly one `/` after the home directory. |
| `Indexer.Lookup` | src/burnchains/bitcoin/indexer.rs:101-131 | `get(key).unwrap_or(default)`: the key's value when present, the default when absent. |
| `Indexer.ParseU16` | src/burnchains/bitcoin/indexer.rs:104-106 | `trim().parse::<u16>()` succeeds exactly when the trimmed text is an unsigned numeral below 2^16, and yields its value. |
| `Indexer.ParseU32` | src/burnchains/bitcoin/indexer.rs:126-128 | `trim().parse::<u32>()` succeeds exactly when the trimmed text is an unsigned numeral below 2^32, and yields its value. |
| `Indexer.PaddedNumeralParses` | src/burnchains/bitcoin/indexer.rs:104-128 | A numeral with any whitespace around it parses to its value as a u16 or a u32 whenever it fits. |
| `Indexer.DefaultTextParses` | src/burnchains/bitcoin/indexer.rs:104-128 | The formatted default of an absent numeric key trims and parses back to that default. |
| `Indexer.PortFrom` | src/burnchains/bitcoin/indexer.rs:104-118 | For one port key: unparseable text gives the key's value error, and an out-of-range port gives its range error. An accepted port lies strictly between 1024 and 65535. An absent key gives the default. |
| `Indexer.TimeoutFrom` | src/burnchains/bitcoin/indexer.rs:126-128 | `timeout` is accepted exactly when absent (default 30) or parseable as a u32; otherwise the error is "Invalid bitcoin:timeout value". |
| `Indexer.FromSection` | src/burnchains/bitcoin/indexer.rs:98-142 | The first failing check decides the error, in the order p2p parse, p2p range, rpc parse, rpc range, timeout. Loading succeeds exactly when none fails. Both ports of an accepted configuration are in range. Every field is its key's value or, for an absent key, its default. |
| `Indexer.FromFile` | src/burnchains/bitcoin/indexer.rs:83-148 | A missing file, an unparseable file and a missing `[bitcoin]` section each give their own error, in that order, before any key is read. Otherwise the section decides. |
| `Indexer.EmptySectionGivesDefaults` | src/burnchains/bitcoin/indexer.rs:67-80 | An empty section yields exactly the default configuration: server "bitcoin.blockstack.com", ports 8332 and 8333, user "blockstack", password "blockstacksystem", timeout 30, spv path under home. Both default ports pass validation. |
| `Indexer.P2pPortAcceptedIffInRange` | src/burnchains/bitcoin/indexer.rs:104-110 | A `p2p_port` of p is accepted exactly when 1024 < p < 65535, and stored as given. Otherwise the error is "Invalid p2p_port". |
| `Indexer.P2pPortOverflowIsValueError` | src/burnchains/bitcoin/indexer.rs:104-106 | A `p2p_port` numeral of 65536 or more fails the u16 parse, so loading reports "Invalid bitcoin:p2p_port value", not "Invalid p2p_port". |
| `Indexer.RpcPortAcceptedIffInRange` | src/burnchains/bitcoin/indexer.rs:112-118 | A `port` of p is accepted exactly when 1024 < p < 65535, and stored as given. Otherwise the error is "Invalid rpc_port". |
| `Indexer.Network.Magic` | src/burnchains/bitcoin/indexer.rs:36-38 | Each network's magic is one of the three constants. |
| `Indexer.ParseNetwork` | src/burnchains/bitcoin/indexer.rs:226-231 | Only "mainnet", "testnet" and "regtest" are recognised, each as the network of that name. |
| `Indexer.NetworkNamesAndMagics` | src/burnchains/bitcoin/indexer.rs:36-38 | Each network's name selects that network. Mainnet has magic 0xD9B4BEF9, testnet 0x0709110B and regtest 0xDAB5BFFA, so the three are pairwise distinct. |
| `Indexer.DefaultRuntime` | src/burnchains/bitcoin/indexer.rs:152-162 | A fresh runtime has no socket, services 0, `USER_AGENT`, the given nonce and the given network magic. |
| `Indexer.BitcoinIndexer.constructor` | src/burnchains/bitcoin/indexer.rs:167-173 | `new` starts from the default configuration and a fresh mainnet runtime with no socket. |
| `Indexer.BitcoinIndexer.ReconnectPeer` | src/burnchains/bitcoin/indexer.rs:179-190 | The socket slot becomes a stream to the configured peer if the connect succeeds, and `None` with "Failed to connect to remote peer" if it fails. Nothing else changes. |
| `Indexer.BitcoinIndexer.Setup` | src/burnchains/bitcoin/indexer.rs:205-218 | The configuration is replaced by the one loaded from `<working_dir>/bitcoin.ini` only on success. On error it is unchanged and the loader's error is returned. |
| `Indexer.BitcoinIndexer.Connect` | src/burnchains/bitcoin/indexer.rs:225-240 | An unknown name gives "Unrecognized network name" and leaves the runtime unchanged. A known name yields a fresh runtime: the mapped magic, services 0, `USER_AGENT`, the new nonce, and a socket set by the connect outcome. |
| `Spv.Flatten` | src/burnchains/bitcoin/spv.rs:33 | A file of n records is exactly 81·n bytes long. |
| `Spv.Split` | src/burnchains/bitcoin/spv.rs:33 | A file of whole records splits into records that reassemble into the file. |
| `Spv.SplitFlatten` | src/burnchains/bitcoin/spv.rs:33 | A file determines its records: splitting the written records gives them back. |
| `Spv.RecordAtOffset` | src/burnchains/bitcoin/spv.rs:49-54 | The record at height h occupies bytes 81·h to 81·h + 81 of the file. |
| `Spv.HeightOf` | src/burnchains/bitcoin/spv.rs:44-46 | The height is one less than the number of whole records in the file, so it is never below -1. |
| `Spv.HeightOfRecords` | src/burnchains/bitcoin/spv.rs:36-37 | A file of n records has height n - 1, so an empty file has height -1. |
| `Spv.HeightAfterAppend` | src/burnchains/bitcoin/spv.rs:46 | Appending n records raises the height by exactly n. |
| `Spv.WholeRecords` | src/burnchains/bitcoin/spv.rs:59-62 | Appending whole records keeps the file a whole number of records long. |
| `Spv.ContiguousAppend` | src/burnchains/bitcoin/spv.rs:59-72 | A contiguous batch that chains to a contiguous chain's tip extends it to a contiguous chain. |
| `Spv.AppendFacts` | src/burnchains/bitcoin/spv.rs:59-72 | Writing a batch to a file of whole records adds exactly the batch to its records and raises its height by the batch length. It keeps the chain contiguous when the batch is contiguous and chains to the tip. |
| `Spv.CheckContiguous` | src/burnchains/bitcoin/spv.rs:59-60 | The loop accepts exactly the batches in which each header's previous hash is the hash of the header before it. |
| `Spv.HeaderStore.constructor` | src/burnchains/bitcoin/spv.rs:63-64 | Opens the store over an existing file with the given records, or over a missing file. |
| `Spv.HeaderStore.HeadersHeight` | src/burnchains/bitcoin/spv.rs:38-47 | A missing file gives a filesystem error. Otherwise the result is the height formula applied to the file length. |
| `Spv.HeaderStore.ReadBlockHeader` | src/burnchains/bitcoin/spv.rs:50-57 | A read returns the 81 bytes starting at offset 81·height. It fails with a filesystem error when the file is missing or the record runs past its end. |
| `Spv.HeaderStore.TipHash` | src/burnchains/bitcoin/spv.rs:66-68 | A missing file, or one with no whole record, has no tip hash. |
| `Spv.HeaderStore.TipBytes` | src/burnchains/bitcoin/spv.rs:66-68 | A file with a whole record has as its tip the hash of the last whole record's 81 bytes. |
| `Spv.HeaderStore.HeightView` | src/burnchains/bitcoin/spv.rs:36-37 | On an existing file, the height is the index of the last stored record. |
| `Spv.HeaderStore.ReadView` | src/burnchains/bitcoin/spv.rs:49-54 | On an existing file, a read succeeds exactly for stored heights and returns the record with that index. |
| `Spv.HeaderStore.TipView` | src/burnchains/bitcoin/spv.rs:66-69 | The tip hash is the hash of the last stored record, and there is none when the file is empty. |
| `Spv.HeaderStore.AppendBlockHeaders` | src/burnchains/bitcoin/spv.rs:59-72 | An append succeeds exactly when the file exists, the batch is contiguous, and the batch chains to the tip (or the file is empty). No difficulty check applies. On success the records are added at the end and a contiguous store stays contiguous. On failure nothing changes. |
| `Spv.HeaderStore.WriteRecords` | src/burnchains/bitcoin/spv.rs:59-62 | Writing appends the batch's records to the file, in order. |
| `Spv.AppendThreeToEmpty` | src/burnchains/bitcoin/spv.rs:59-72 | From an existing empty file, a batch of three chained headers is accepted. The height becomes 2 and the tip is the third header's hash. |
| `Spv.HeightAsWrittenU64` | src/burnchains/bitcoin/spv.rs:38-46 | The sketch's `u64` height formula agrees with the intended height when the file holds a whole record, and wraps to 2^64 - 1 when it holds none. |
| `Spv.HeightAsWrittenEmptyFile` | src/burnchains/bitcoin/spv.rs:37-46 | For an existing empty file the `u64` formula yields 2^64 - 1, and the intended formula yields -1. |
| `Driver.Start` | src/main.rs:16-19 | A failed `setup` panics. Otherwise the loop starts with the flag set, so the first iteration handshakes. |
| `Driver.Step` | src/main.rs:21-63 | The handshake runs exactly when the flag is set, and a failed one skips receiving. A message is received only once the flag is clear, and handled only if received. `ConnectionBroken` from either call sets the flag. `Ok` or `UnhandledMessage` from handling keeps it clear. Every other error panics, and nothing else does. |
| `Driver.Run` | src/main.rs:21-63 | Running no iterations changes nothing, and a panic that happens inside the loop comes from receiving or handling, never from setup. |
| `Driver.RunAppend` | src/main.rs:21-63 | Running two stretches of iterations one after the other is running their concatenation. |
| `Driver.RunFatalStays` | src/main.rs:50-60 | After a panic nothing more happens. |
| `Driver.PanicNeedsFatalError` | src/main.rs:21-63 | The loop panics only if some iteration's outcome carries an error other than `ConnectionBroken` from receive, or other than `UnhandledMessage` and `ConnectionBroken` from handle. |
| `Driver.NoFatalErrorKeepsRunning` | src/main.rs:21-63 | A peer that never reports such an error keeps the loop running. |
| `Driver.FatalAt` | src/main.rs:50-60 | A panic after some iterations is the outcome of the whole run. |
| `Driver.Drive` | src/main.rs:13-64 | The imperative loop of `main` gives exactly `Run(Start(setup), trace)`. It stops early only on a panic, and then its result is `Run` of the prefix it consumed. |

## Findings

| source | as written | input that shows it | evidently intended | confidence | as-written member | corrected member |
|---|---|---|---|---|---|---|
| src/burnchains/bitcoin/spv.rs:38-46 | `get_headers_height` returns `u64` and computes `(file_size / BLOCK_HEADER_SIZE) - 1` in `u64` | an existing headers file of 0 to 80 bytes | `Ok(-1)`, as the doc comment at spv.rs:37 says. The subtraction instead underflows: it panics in a debug build and wraps to 2^64 - 1 in a release build. | medium; the code is a commented-out sketch; not executed | `Spv.HeightAsWrittenEmptyFile` | `Spv.HeightOf` |

## Left out

- The `Arc<Mutex<…>>` around the socket, `socket_locked` and lock poisoning are concurrency primitives. The slot is a plain `Option`.
- The TCP connect itself is an abstract outcome over the endpoint (`canConnect`). Timeouts and the stream's I/O are not modelled.
- `thread_rng` is not modelled: the nonce is a parameter.
- `env::home_dir` is a parameter. Its `unwrap` panic when there is no home directory is not modelled, and neither is `to_str().unwrap()` on a non-UTF-8 path.
- `PathBuf::is_file` and `Ini::load_from_file` are a map from paths to already-parsed INI files. INI syntax is not modelled, and the section-less INI group is not modelled.
- `get_block_hash` and `get_block_txs` are stubs that always return "not implemented". They are not part of this model.
- `connect_handshake_backoff`, `recv_message`, `handle_message` and the `messages` and `network` modules are not part of this model. Their results are abstract per-iteration outcomes.
- The `LoneBlockHeader` encoding and `Sha256dHash` are not modelled. A record is an opaque 81-byte blob, its previous hash is read at bytes 4 to 36, and its own hash is a function passed in.
- File metadata, seeks and writes are an in-memory byte sequence. A write that fails part way is not modelled.
- Logging (`logger::init`, `debug!`) is left out. A `panic!` is the terminal `Fatal` state.
- `Driver.Drive`: `main` loops forever. The model runs it over a finite trace of outcomes and proves it against `Run`.
- `Spv.HeaderStore.AppendBlockHeaders`: requires a file of whole records. The sketch does not say what an append should do after a trailing partial record.
- `Spv.HeaderStore.AppendBlockHeaders`: does not itself promise the new height and tip hash. Those follow from its promise `Records() == old(Records()) + headers`, through `HeightView`, `TipView` and `HeightAfterAppend`.
- `Spv.HeaderStore.ReadBlockHeader`: takes the height as an unbounded number and computes the offset 81·h exactly. The sketch multiplies in `u64` (spv.rs:54), which overflows for heights of 2^64 / 81 and above. That overflow is not modelled.
- `Spv.HeightAsWrittenU64`: models the release-build wrap-around; a debug build panics instead.
- `Text.ParseUnsigned`: does not distinguish Rust's parse error kinds (empty, invalid digit, overflow). `from_file` discards them.
