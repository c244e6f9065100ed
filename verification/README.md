# Arweave signing app: verified model

The app runs on a hardware wallet. It receives an Arweave transaction in packets, parses it,
shows it, computes its deep hash over SHA-384 and signs that with an RSA key that is cached in
flash per master seed. This project models five parts of it, and the host client that talks to
it, and proves what each promises:

- `Fips180.dfy`, `PrimeTable.dfy`, `Sha384.dfy`, `Sha384Stream.dfy`, `Sha384Theorems.dfy`,
  `Sha384Example.dfy`: FIPS 180-4 as a specification, the primes behind its constants, a known
  answer, and the unrolled, block-buffered engine that refines it.
- `DeepHashSpec.dfy`, `TxDigest.dfy`: the recursive deep hash over any 48-byte hash function,
  the extraction of a hash collision from two different transactions with one digest, and the
  in-place accumulator of the device.
- `WireFormat.dfy`, `TxParser.dfy`, `HostClient.dfy`, `SignProtocol.dfy`: encoder and cursor
  parser as an inverse pair, the packets of the host, and the INIT/ADD/LAST protocol over
  whole runs.
- `KeyStore.dfy`, `KeyDerivation.dfy`, `KeyStoreRuns.dfy`, `SignatureRuns.dfy`: what a key
  depends on, the two-slot key store over sequences of boots with any seeds and failures, and
  the retrieval of the stored signature.
- `Base64Url.dfy`: the bit-carry encoder against RFC 4648.
- `Display.dfy`, `ReviewMeaning.dfy`: the items of the review, their texts and pages, and what
  a review says about the transaction.
- `SigningDevice.dfy`, `EndToEnd.dfy`: the handlers put together, and the host's signing loop
  run against them.
- `DeviceRuns.dfy`: sessions of commands in any order, and whole lives of the device over many
  boots.
- `Bytes.dfy`, `CStrings.dfy`: integers, byte strings and the C library calls.

Conventions. A byte is a number below 256; 64-bit counters wrap explicitly; words of the
compression function are bit vectors. A pointer into the transaction buffer is an offset. Code
that updates memory is a class or a method over arrays, proved against a function; the
theorems are about the functions. SDK calls (SHA-256, next prime, key pair, RSA signature,
seed derivation) are unspecified functions given as parameters, and every call can fail.
Exceptions and error codes are result values. A capacity below 65536 stands for the
transaction buffer (8192 or 16384 bytes in the app).

Behaviour worth knowing, all of it proved below:

- Trailing bytes after a transaction are accepted and ignored, and tx_initialized is not
  cleared by a complete upload, so one more LAST packet reads the same transaction again.
- A transaction with an empty target or an empty last_tx is always refused at validation,
  because the encoder's result 0 stands for both an error and an empty text.
- crypto_store_init can report success and leave device_initialized unset
  (`KeyStoreRuns.SuccessWithoutKey`); the store stays consistent.
- The result of the SHA-256 call in crypto_sign is not looked at (app/src/crypto.c:81). If it
  fails, the device signs what is in the buffer, stores that and answers 0x9000 with the deep
  hash: the host gets a signature that is not one of its message
  (`SigningDevice.LeftOversAreSigned`, `EndToEnd.SignedExactly`).
- An error of the seed comparison counts as "different". It can put one seed into both slots
  (`KeyStoreRuns.StepOrderedExactly`) and erase the slot that holds the current seed
  (`KeyStoreRuns.CurrentSeedErased`).
- A tag may look like a data root. So a review in expert mode belongs to one transaction only
  if it shows a data root and sixteen tags, or no data root and a first tag that does not look
  like one (`ReviewMeaning.UnambiguousExactly`). Even then a tag name is only shown up to a
  NUL and the end of the key buffer, and a data size up to a NUL.
- For a refused upload the host's "digest" is the text of the error with the status word
  behind it (js/src/index.js:333-336); it is a digest only when the status is 0x9000.

The first packet carries twenty zero bytes (js/src/index.js:151) and P2 must be 0
(app/src/apdu_handler.c:47-49), although the app's APDU document describes an empty first
packet and an unused P2; the transaction's last field is the data root, with a length of its
own, where that document calls it data. What the C and JavaScript do is what is stated here.

## Model

| member | source | states |
|---|---|---|
| Sha384Engine.F0IsMaj | deps/sha512/sha512.c:195 | the optimised F0 is the majority function of FIPS 180-4 section 4.1.3, for all words |
| Sha384Engine.F1IsCh | deps/sha512/sha512.c:196 | the optimised F1 is the choice function of section 4.1.3, for all words |
| Sha384Engine.P | deps/sha512/sha512.c:198-204 | the in-place update of d and h, read with the registers renamed by one position, is one shift-register round of section 6.4.2 |
| Sha384Engine.SigmasAreShifts | deps/sha512/sha512.c:186-193 | the macros S0 to S3, with their shifts written out, are the rotations and shifts of section 4.1.3 for all words |
| Sha384Engine.GetWordIsBigEndian | deps/sha512/sha512.c:79-86 | the shifted-and-or'ed word is the big-endian reading of its eight bytes |
| Sha384Engine.WordOfWordBytes | deps/sha512/sha512.c:89-100 | the eight bytes that are written for a word, read as a big-endian word, give it back: the most significant byte comes first |
| Sha384Engine.DigestWords | deps/sha512/sha512.c:316-323 | the digest read in pieces of eight bytes is the first six words of the final hash value, in order |
| Sha384Engine.FillSchedule | deps/sha512/sha512.c:206-212 | the two loops leave the 80-word message schedule of section 6.4.2 in the array |
| Sha384Engine.EightRounds | deps/sha512/sha512.c:224-241 | one turn of the unrolled loop advances the working variables by eight rounds, whatever turn it is |
| Sha384Engine.AddRegisters | deps/sha512/sha512.c:243-250 | the working variables are added to the hash value word by word, modulo 2^64 |
| Sha384Engine.Process | deps/sha512/sha512.c:180-251 | for every state and block the state array ends as the compression of section 6.4.2 (80 rounds one by one, plus the addition) |
| PrimeTable.FirstEightyPrimes | deps/sha512/sha512.c:138-178 | the numbers behind the constants are the first eighty primes: each entry is prime, and no number below the first or between two neighbours is |
| Sha384Theorems.RoundConstants | deps/sha512/sha512.c:138-178 | each of the 80 constants holds the first 64 bits of the fractional part of the cube root of its prime, in the order of the primes (section 4.2.3) |
| Sha384Theorems.InitialValue | deps/sha512/sha512.c:125-132 | the initial words hold the first 64 bits of the fractional parts of the square roots of the 9th to 16th primes (section 5.3.4) |
| Sha384Stream.CountAdvances | deps/sha512/sha512.c:266-268 | two words and a carry count bytes modulo 2^128, for every position and every update length |
| Sha384Stream.PutU64IsBigEndian | deps/sha512/sha512.c:89-100 | the eight bytes stored are the base-256 digits of the number, most significant first |
| WordValues.ShiftedValues | deps/sha512/sha512.c:304-305 | a word shifted left by three is its value times 8 modulo 2^64, and the "or" with the three bits of the word below adds exactly what that word loses |
| Sha384Stream.ShiftedCount | deps/sha512/sha512.c:304-305 | the words high and low that the code builds with shifts and an "or" have the values that the length field needs |
| Sha384Stream.LengthField | deps/sha512/sha512.c:304-308 | the sixteen stored bytes are the 128-bit big-endian bit count, for every length |
| Sha384Stream.PaddedInTwoUpdates | deps/sha512/sha512.c:310-314 | both padding cases (last below 112 and not) complete the message to its padding of section 5.1.2 |
| Fips180.ZeroCountIsLeast | deps/sha512/sha512.c:310-311 | the number of zero bytes is the smallest that leaves exactly the length field of the last block |
| Sha384Stream.Context.constructor | deps/sha512/sha512.c:103-133 | a new context represents the empty message |
| Sha384Stream.Context.Update | deps/sha512/sha512.c:256-285 | a context that represents m represents m + data afterwards: counter, state after the whole blocks, and buffered rest |
| Sha384Stream.Context.AbsorbInput | deps/sha512/sha512.c:270-284 | buffered bytes and input are hashed block by block in order; what is left is at the front of the buffer |
| Sha384Stream.Context.Finish | deps/sha512/sha512.c:298-324 | the output is the state after the padding of everything that was fed |
| Sha384Stream.Sha384Into | deps/sha512/sha512.c:329-337 | for every input the 64 bytes are the fold of the compression over the padded message, and the first 48 are SHA-384 |
| Sha384Example.KnownDigest | deps/sha512/sha512.c:180-337 | the SHA-384 of "abc" is the digest that is published with the standard, through all 64 derived words of the schedule and all 80 rounds |
| Sha384Example.EngineOnExample | deps/sha512/sha512.c:326-337 | the engine writes that digest |
| Sha384Theorems.SplitInvariance | deps/sha512/sha512.c:256-285 | two contexts fed the same bytes in different pieces agree on the counter, the state and the valid part of the buffer |
| Sha384Theorems.UpdateAll | deps/sha512/sha512.c:256-285 | any sequence of updates represents the concatenation of its pieces |
| Sha384Theorems.PadIsInjective | deps/sha512/sha512.c:298-314 | messages below 2^125 bytes are determined by their padded stream |
| Sha384Theorems.CollisionOfHashIsCollisionOfCompression | deps/sha512/sha512.c:180-324 | two different messages with the same final state contain two different inputs of the compression function with equal outputs, both visited on the way |
| DeepHashSpec.ChainIsChunks | app/src/parser.c:92-104 | folding an accumulator from the left is the recursive deepHashChunks |
| DeepHashSpec.TagsInWords | app/src/parser.c:76-81 | the tags are the texts "blob" and "list" with the size, for instance "blob512" and "list9" |
| Bytes.DecimalRoundTrip | app/src/parser.c:76-81 | what "%d" prints denotes the number, its first digit being the most significant and not zero |
| DeepHashSpec.LeavesAreTheWire | app/src/parser.c:136-160 | what is hashed is what is sent, in the same order: the blobs of the tree with their lengths, and the number of tags, are the encoding |
| DeepHashSpec.TxTreeInjective | app/src/parser.c:136-160 | the nine-element tree (seventh child: list of two-element tag lists) determines the transaction |
| DeepHashSpec.ChainCollision | app/src/parser.c:118-134 | two accumulator chains with equal values, of any two lengths, yield a collision among the strings hashed for them |
| DeepHashSpec.MixedCollision | app/src/parser.c:83-104 | a blob and a list with equal deep hashes yield a collision |
| DeepHashSpec.TreeCollision | app/src/parser.c:76-160 | two different trees with equal deep hashes yield a collision, for any 48-byte hash function |
| DeepHashSpec.TxCollision | app/src/parser.c:76-160 | two different valid transactions with equal digests yield two different strings with equal hashes, one hashed for each |
| EndToEnd.DigestCollision | app/src/parser.c:136-160 | the same with SHA-384 of FIPS 180-4 as the hash function |
| TxDigest.CryptoSha384 | app/src/crypto_helper.c:26-41 | 48 bytes are written in place and are the hash if no error is reported, on both branches: the SDK's hash, which may report errors, and the engine, whose 64 bytes are cut and which never does |
| TxDigest.HashTag | app/src/parser.c:76-81 | the hash of kind and decimal size is written at its place |
| TxDigest.HashBlob | app/src/parser.c:83-90 | the deep hash of a blob is written at its place, computed in the two halves of one buffer |
| TxDigest.DeepHashState.Accumulate | app/src/parser.c:92-97 | the accumulator half becomes the hash of both halves |
| TxDigest.DeepHashState.AddBlob | app/src/parser.c:99-104 | one more blob is folded into the accumulator |
| TxDigest.GetTagDigest | app/src/parser.c:106-116 | the deep hash of the two-element list of a tag is written at its place |
| TxDigest.AccumulateTags | app/src/parser.c:124-128 | the loop leaves the deep hash of the list of all tags, for every tag count |
| TxDigest.ApplyDigestTags | app/src/parser.c:118-134 | the digest of the tag list becomes the next child of the transaction |
| TxDigest.GetDigest | app/src/parser.c:136-160 | on success the buffer holds the recursive deep hash of the transaction's tree; on an error it holds zeros, and a short buffer is left alone |
| TxDigest.DigestInWords | app/src/parser.c:136-160 | the digest of a valid transaction written out as nine foldings that start from the hash of "list9" |
| TxDigest.TagDigestInWords | app/src/parser.c:106-116 | the digest of a tag written out |
| WireFormat.U16Inverse | app/src/parser_impl.c:101-107 | reading a 16-bit number succeeds with n exactly where the two bytes of n stand |
| WireFormat.U16IsBigEndian | js/src/index.js:73-75 | two bytes, the more significant one first, written and read |
| WireFormat.ElementInverse | app/src/parser_impl.c:109-115 | reading an element succeeds with s exactly where s stands with its length in front |
| WireFormat.TagInverse | app/src/parser_impl.c:117-121 | the same for a tag |
| WireFormat.TagListInverse | app/src/parser_impl.c:139-146 | the tag section is read as these tags exactly where their count and their encodings stand, and there are at most 16 |
| WireFormat.ReadsEncoding | app/src/parser_impl.c:124-151 | on an encoded valid transaction followed by any bytes the reader returns the transaction and stops at the end of its encoding |
| WireFormat.ReadIsEncoding | app/src/parser_impl.c:124-151 | whatever is read is a valid transaction, and the consumed bytes are its encoding |
| WireFormat.ReadFailsExactly | app/src/parser_impl.c:124-151 | reading fails exactly when no valid encoding is a prefix of the buffer |
| WireFormat.ParseErrorExactly | app/src/parser_impl.c:124-151 | which error a failed read reports, in terms of what stands in the buffer |
| WireFormat.EncodingsArePrefixFree | js/src/index.js:96-147 | no valid encoding is a prefix of that of another transaction |
| WireFormat.TrailingBytesAreIgnored | app/src/parser_impl.c:124-151 | the result depends on the consumed bytes only |
| TxParser.ParserContext.Init | app/src/parser_impl.c:28-48 | an empty size is refused, otherwise the parser sees exactly that many bytes |
| TxParser.ParserContext.ReadU16 | app/src/parser_impl.c:101-107 | cursor, value and status are those of the specification |
| TxParser.ParserContext.ReadElement | app/src/parser_impl.c:109-115 | the element written points at the bytes read; cursor and status are those of the specification |
| TxParser.ParserContext.ReadTags | app/src/parser_impl.c:144-146 | the loop fills the table with the tags of the specification |
| TxParser.ParserContext.Read | app/src/parser_impl.c:124-151 | status, cursor and the transaction the object stands for are those of the specification, whatever the object held before |
| TxParser.Parse | app/src/parser.c:35-41 | the same from the raw buffer, with the empty buffer and the 16-bit size |
| TxParser.ParseTwice | app/src/parser_impl.c:124-151 | two objects with different earlier contents stand for the same transaction after parsing the same bytes |
| HostClient.FlattenParts | js/src/index.js:88-94 | the loop concatenates the parts in order |
| HostClient.EncodeTx | js/src/index.js:96-147 | the blob is the encoding that the reader inverts |
| HostClient.PiecesFacts | js/src/index.js:155-161 | the packets after the first put together are the message; none is empty and none exceeds 250 bytes |
| HostClient.PrepareChunks | js/src/index.js:149-163 | the loop yields twenty zero bytes and then the consecutive pieces of the encoding |
| HostClient.ChunksFacts | js/src/index.js:149-163 | the first packet is twenty zero bytes and the others put together are the message |
| SignProtocol.TxBuffer.AppendBytes | app/src/common/tx.c:62-65 | a payload that fits is appended whole, of one that does not fit less is taken |
| SignProtocol.PacketHandler.HandleChunk | app/src/apdu_handler.c:39-79 | flag, buffer and answer are those of the transition function, for every packet |
| SignProtocol.UploadState | app/src/apdu_handler.c:39-79 | after every sequence of packets, tx_initialized says that there is an INIT since which nothing broke the upload, and the buffer is then the concatenation of the payloads since |
| SignProtocol.CompleteExactly | app/src/apdu_handler.c:66-75 | a packet reaches parsing exactly if it is a LAST of such an upload and fits |
| SignProtocol.CompleteBuffer | app/src/apdu_handler.c:66-75 | what is then parsed is everything sent since the latest INIT, in order |
| SignProtocol.AnswersExactly | app/src/apdu_handler.c:39-79 | the answer to every packet of every run, by the numbers of the packet types and by whether there is a whole upload before and after it |
| SignProtocol.NothingAfterBreak | app/src/apdu_handler.c:39-79 | after a payload that does not fit, or an unknown packet type, no packet reaches parsing before a new INIT |
| SignProtocol.NothingUntilInit | app/src/apdu_handler.c:59-78 | while tx_initialized is not set no packet reaches parsing before a new INIT |
| SignProtocol.ExtraLastReadsSameTransaction | app/src/apdu_handler.c:66-75 | tx_initialized survives a complete upload: one more LAST completes again and the same transaction is read |
| KeyStore.Store.DerivePrime | app/src/crypto_store.c:173-215 | eight hashes of (0, index, seed, counter) are written in order from the given place on |
| KeyStore.Store.InitPrimes | app/src/crypto_store.c:229-286 | the slot receives both primes derived from its seed, or is unchanged if any step fails |
| KeyDerivation.StartingPointBlocks | app/src/crypto_store.c:183-202 | the starting point of a search is eight hashes of (0, index, seed, number) side by side, but for the top bit |
| KeyDerivation.PrimesAreSearched | app/src/crypto_store.c:238-280 | the first prime is searched from index 0 and the second from index 1 |
| KeyDerivation.FullLength | app/src/crypto_store.c:254-255 | a starting point is at least 2^2047, and nothing but its top bit is changed |
| KeyDerivation.EqualPrimesCoincide | app/src/crypto_store.c:238-280 | equal primes of one seed give two named strings with one SHA-256, or two different starting points with one next prime |
| KeyDerivation.EqualSeedPrimesCoincide | app/src/crypto_store.c:173-286 | the same for two seeds with the same primes |
| KeyStore.Store.InitKeys | app/src/crypto_store.c:288-315 | the slot receives the key pair of its primes and is marked initialised, or is unchanged |
| KeyStore.Store.InitializeSlotInUse | app/src/crypto_store.c:392-411 | flash and RAM after success and after a failure at each stage |
| KeyStoreRuns.Stages | app/src/crypto_store.c:392-411 | each stage writes its field only if it and those before it succeed, and the other slot is not touched |
| KeyStore.Store.UninitializeSlot | app/src/crypto_store.c:317-333 | primes, private key, seed and flag of that slot are cleared, the public key stays |
| KeyStoreRuns.Erased | app/src/crypto_store.c:317-333 | erasing leaves zeros and the public key |
| KeyStore.Store.InitStore | app/src/crypto_store.c:335-367 | the five branches, with their comparisons in order, and what each writes |
| KeyStore.Store.TestStore | app/src/crypto_store.c:369-390 | the same decision, writing nothing but slot_in_use |
| KeyStore.Store.PublicKeyPart | app/src/crypto_store.c:97-113 | half of the modulus of an initialised slot, nothing for other indices |
| KeyStoreRuns.BootAndTest | app/src/common/main.c:37-39 | a boot: RAM starts afresh and device_initialized is the result of the check |
| KeyStoreRuns.OfferInitialise | app/src/common/main.c:39-45 | initialisation is only run while device_initialized is not set |
| KeyStoreRuns.RunKeepsConsistent | app/src/crypto_store.c:288-425 | over every run, with any seeds and failures, each initialised slot holds primes and keys derived from its stored seed, and a ready device uses an initialised slot with the seed of the current boot |
| KeyStoreRuns.ServedKeyIsFresh | app/src/crypto_store.c:413-418 | whenever device_initialized is set the public key served is the one derived afresh from the seed of the current boot |
| KeyStoreRuns.RunKeepsOrdered | app/src/crypto_store.c:335-411 | without comparison errors slot 2 is initialised only if slot 1 is, and then for a different seed |
| KeyStoreRuns.RunKeepsSecondNeedsFirst | app/src/crypto_store.c:335-411 | with any errors at all slot 2 is initialised only if slot 1 is |
| KeyStoreRuns.StepOrderedExactly | app/src/crypto_store.c:335-367 | a step puts one seed into both slots exactly if it initialises slot 2 successfully after the comparison with slot 1, which holds the seed, reported an error |
| KeyStoreRuns.RunOrderedExactly | app/src/crypto_store.c:335-411 | two initialised slots hold different seeds throughout a run, with any errors, exactly if no step of it is such a step |
| KeyStoreRuns.ErasesExactly | app/src/crypto_store.c:335-367 | for every event, comparison errors included: an initialised slot changes exactly when an uninitialised device is initialised while both slots are and neither is found to hold the seed |
| KeyStoreRuns.TwoSeedsEraseExactly | app/src/crypto_store.c:335-367 | with two seeds that happens exactly if the comparison with the slot that holds the current seed reports an error |
| KeyStoreRuns.CurrentSeedErased | app/src/crypto_store.c:335-367 | the failing case: one such error, then a failed derivation, and no slot is left initialised |
| KeyStoreRuns.ThirdSeedClears | app/src/crypto_store.c:317-366 | then nothing private of the two earlier seeds is left in either slot, whether or not the attempt succeeds |
| KeyStoreRuns.TwoSeedsNeverErase | app/src/crypto_store.c:335-411 | with at most two seeds nothing is ever erased, and key generations equal newly initialised slots: at most two |
| KeyStoreRuns.TestAndInitAgree | app/src/crypto_store.c:335-390 | a positive check means init picks the same slot and writes nothing; a negative one means it takes an initialising branch |
| KeyStoreRuns.FailedAttempt | app/src/crypto_store.c:335-411 | a failed attempt leaves the next one on an initialising branch; erasing happens at most once |
| KeyStoreRuns.AttemptsUntilSuccess | app/src/common/main.c:39-45 | every retry after a negative check tries to initialise until one succeeds |
| KeyStoreRuns.LaterBoots | app/src/crypto_store.c:369-390 | after success every later boot with that seed, and no other seed between, finds the same slot and writes nothing |
| KeyStoreRuns.AttemptResult | app/src/crypto_store.c:335-411 | init sets device_initialized exactly if it succeeds on an initialising branch |
| KeyStoreRuns.SuccessWithoutKey | app/src/common/main.c:37-48 | after a passing comparison error at boot, init reports success and the device still is not initialised |
| KeyStoreRuns.AttemptWhileReady | app/src/crypto_store.c:335-411 | without comparison errors one more attempt on a ready device changes no slot |
| KeyStoreRuns.AttemptWhileReadyNeedsComparison | app/src/crypto_store.c:335-411 | with one it can leave device_initialized set over an uninitialised slot (a failing case) |
| KeyStoreRuns.AttemptWhileReadyExactly | app/src/crypto_store.c:335-411 | an attempt on a ready device keeps the store consistent exactly if it initialises no slot or nothing in it fails |
| KeyStore.Store.StoreSignature | app/src/crypto_store.c:69-73 | the signature replaces the one in the slot in use, and the flag is set |
| KeyStore.Store.SignaturePart | app/src/crypto_store.c:79-95 | which half is served, and that serving the second half erases the signature |
| SignatureRuns.SessionState | app/src/crypto_store.c:69-95 | over every session: readable exactly from a store to the first later read of part 1, always the latest signature; zeros are stored after that |
| SignatureRuns.Retrieval | js/src/index.js:347-375 | part 0 then part 1 concatenate to the stored signature, with any harmless requests around them |
| SignatureRuns.NothingAfterSecondHalf | app/src/crypto_store.c:79-95 | after part 1 no request is served until the next store |
| Base64Url.CarryLoop | app/src/b64url.c:46-73 | the carry loop writes exactly the 24-bit-group encoding of RFC 4648 sections 4 and 5 without padding, inside the buffer |
| Base64Url.EncodeInto | app/src/b64url.c:31-74 | null pointers, the size check, the cleared rest, and the number of characters (n + ceil(n/3)) |
| Base64Url.Turn | app/src/b64url.c:50-66 | one turn of the loop settles the next one or two 6-bit groups and keeps the carry below the table size |
| Base64Url.LastTurn | app/src/b64url.c:68-71 | the last character is the group completed with zero bits |
| Base64Url.IndexOfChar | app/src/b64url.c:24-29 | every table entry is the character whose index in the alphabet of RFC 4648 section 5 is its own |
| Base64Url.EncodingCharacters | app/src/b64url.c:24-29 | every character of an encoding is a letter, a digit, '-' or '_' |
| Base64Url.EncodedNumber | app/src/b64url.c:46-73 | the text read as a number in base 64 is the input read as a number in base 256, followed by the unused bits of the last group |
| Base64Url.RoundTrip | app/src/b64url.c:31-74 | a decoder recovers every input exactly |
| Base64Url.Injective | app/src/b64url.c:31-74 | different inputs have different texts |
| Base64Url.LengthIsExact | app/src/b64url.c:37-44 | the size check is exact: the encoding has as many characters as 6-bit groups are needed |
| Display.IndicesAreTheListedItems | app/src/parser.c:296-341 | display indices below the count are the listed items in order; the 16-bit subtraction does not wrap and the tag index is below tags_count |
| Display.ListedItemsAreDistinct | app/src/parser.c:301-341 | no item is shown twice |
| Display.ExpertListsEverything | app/src/parser_impl.c:176-181 | in expert mode every item that exists is listed |
| Display.GetNumItems | app/src/parser_impl.c:176-181 | the 8-bit count is exact |
| Display.PrintBase64 | app/src/parser.c:167-183 | text, page and status for target, last_tx and data root |
| Display.PrintQuantity | app/src/parser.c:185-217 | text, page and status for the amount, with its three errors |
| Display.PrintSize | app/src/parser.c:219-231 | text, page and status for the data size |
| Display.KeyTextIgnoresWhatFollows | app/src/parser.c:273-275 | the caption of a tag does not depend on the memory behind its name |
| Display.PrintTag | app/src/parser.c:266-279 | caption and page of a tag |
| Display.GetItem | app/src/parser.c:281-341 | which item is shown under an index, with which caption and page, also written out with the captions as texts; and that it fails exactly if the item has no text |
| Display.PresentedInWords | app/src/parser.c:281-341 | what is shown, written out: the caption in characters and the text of the field or tag behind each index |
| Display.ErrorTextsInWords | app/src/parser_impl.c:50-99 | the description of each error |
| Display.ValidateTx | app/src/parser_impl.c:154-168 | accepted exactly if the owner is the device's key |
| Display.Validate | app/src/parser.c:43-58 | accepted exactly if the owner is the device's key and every listed item has a text; otherwise the error is that of the owner check or of the first item that fails |
| Display.JudgeInWords | app/src/parser.c:43-58 | the verdict in terms of the fields: which error, and in which order they are looked at |
| Display.JudgeBytesExactly | app/src/parser.c:35-58 | an upload comes to the review exactly if it holds a transaction that can be reviewed |
| Display.ParseAndValidate | app/src/common/tx.c:79-104 | parsing then validating gives that verdict, with the error of the first failure, and the object stands for the transaction |
| Display.ShowPages | fuzz/parser_parse.cpp:48-66 | the page loop of one item succeeds on every page up to the count reported, and ends |
| Display.ShowEverything | fuzz/parser_parse.cpp:18-69 | parse, validate, then every page of every item into buffers of any size: once validation succeeds no call fails |
| Display.ReviewableExactly | app/src/parser.c:43-58 | the transactions that can be reviewed: target and last_tx of 1 to 150 bytes, an amount that formats, and in expert mode a data size of at most 200 and a data root of at most 150 bytes |
| ReviewMeaning.SameScreens | app/src/parser.c:281-341 | transactions with the same review, for key buffers of the given size, have the same screens on every page |
| ReviewMeaning.KeyBytesInjective | app/src/parser.c:273-275 | the bytes in the key buffer show exactly the part of a name that fits it |
| ReviewMeaning.ReviewDeterminesTransaction | app/src/parser.c:281-341 | of two reviewable transactions that both have a data root or both have none, exactly those have the same review that agree in every field (names up to a NUL and the size of the key buffer, data size up to a NUL, amount as formatted) |
| ReviewMeaning.TagWithTheCaptionOfAField | app/src/parser.c:325-341 | for a reviewable transaction with a data root, the one with a tag in its place has the same review and does not agree; it is valid exactly if there was room for the tag, and then reviewable |
| ReviewMeaning.DataRootForTag | app/src/parser.c:325-341 | the other way round for a transaction without data root whose first tag looks like one |
| ReviewMeaning.UnambiguousExactly | app/src/parser.c:281-341 | a review belongs to one transaction (up to agreement) exactly if it has a data root and 16 tags, or no data root and a first tag that does not look like one |
| SigningDevice.Device.ParseUpload | app/src/common/tx.c:79-104 | the verdict on the uploaded buffer, against the key in use |
| SigningDevice.Device.CryptoSign | app/src/crypto.c:55-97 | the reply is the deep hash, and what is stored is a signature, with the private key of the slot in use, of its SHA-256 or, if that unchecked call failed, of what it left in its buffer; otherwise a SHA-384 or the RSA call failed or there is no key, and nothing changes |
| SigningDevice.LeftOversAreSigned | app/src/crypto.c:80-84 | the failing input: an SDK for which the signature over the left-over bytes is not that of the digest, for every key, digest, salt and left-over bytes |
| SigningDevice.SignsDigestExactly | app/src/crypto.c:80-84 | what is signed is the digest, whatever the SDK computes, exactly if the SHA-256 call reported no error |
| SigningDevice.Device.AfterReview | app/src/common/actions.h:28-45 | the answer after approval and after rejection |
| SigningDevice.Device.HandleSign | app/src/apdu_handler.c:170-190 | a SIGN packet end to end: packet handler, parser, the error text for a refused upload, review, deep hash and signature, and nothing at all while device_initialized is not set |
| SigningDevice.Device.HandleGetSigPart | app/src/apdu_handler.c:150-167 | the guards and the part served |
| SigningDevice.Device.FillAddress | app/src/crypto.c:104-133 | the buffer is cleared; with a key, 47 bytes of room and a working hash its front is the base64url of the key's SHA-256: exactly 43 characters |
| SigningDevice.ObserveTwice | app/src/parser_impl.c:124-181 | two objects with any earlier contents, after parsing the same bytes: same outcome, item count, item on every page, and digest |
| KeyStoreRuns.KeysInUse | app/src/crypto_store.c:413-425 | on a ready device both the public and the private key in use are derived from the seed of the current boot |
| EndToEnd.OutputOfReply | js/src/index.js:322-340 | what the host takes from a response: a digest as it is, an error text with the status word behind it, nothing for other status words |
| EndToEnd.CodesAsNumbers | js/src/common.js:37-50 | the status words as numbers |
| EndToEnd.SendPiece | js/src/index.js:313-345 | the answer and the device's buffer after one packet of an upload, whether it fits or not |
| EndToEnd.SendMessage | js/src/index.js:377-396 | the loop over the packets: a message that fits is parsed exactly, one that does not never reaches parsing |
| EndToEnd.SignGetDigest | js/src/index.js:377-409 | for every valid transaction: if its encoding fits, the device parses exactly it, and the host gets its deep hash, the text of the error for which it was refused, or no output; if it does not fit, nothing reaches parsing |
| EndToEnd.SeedOfSignature | app/src/crypto.c:72-83 | with a consistent key store the key that signs is derived from the seed of the current boot, and the owner of what can be reviewed belongs to it |
| EndToEnd.SignedExactly | app/src/crypto.c:80-93 | an answer with 0x9000 comes with the signature of the message's deep hash, whatever the SDK computes, exactly if the SHA-256 call reported no error |
| EndToEnd.Sign | js/src/index.js:347-375 | on success the host has the deep hash of its own message and a signature made with the key of the current boot's seed, which is the signature of that deep hash unless the SHA-256 call failed; the device keeps no copy. It succeeds whenever the message fits, can be reviewed and is approved, and no SDK call that is looked at fails |
| EndToEnd.EngineDigest | app/src/crypto_helper.c:33-38 | with the engine of this repository the digest is the deep hash over SHA-384 of FIPS 180-4, and no error is possible |
| DeviceRuns.HandleAll | app/src/apdu_handler.c:190-264 | a session of SIGN packets and part requests, with any contents, decisions and failures: the upload and the stored signature are those of the two run models, a signature is stored only for a completely uploaded, reviewable and approved transaction, and parts are served as the store serves them |
| DeviceRuns.ServedHalf | app/src/apdu_handler.c:150-190 | in every session a served half belongs to the signature for the transaction approved last, and that transaction is the one sent since the latest INIT before and can be reviewed with the key in use |
| DeviceRuns.Live | app/src/common/main.c:37-48 | a whole life from an empty key store on, with any seeds, failures, attempts and commands: every command of every boot is right, and a ready device holds the keys of the boot's seed |
| DeviceRuns.ServedInBoot | app/src/crypto_store.c:69-95 | in every boot of a life a served half is half of a signature with the key of the boot's seed for the transaction approved last, whose owner belongs to that seed; it is the signature of its deep hash unless the SHA-256 call failed |

## Left out

- RSA key generation, PSS signing, SHA-256, prime search and seed derivation: SDK calls, unspecified functions with a failure per call. A signature is an unspecified function of the private key, the hash and the salt that was drawn; that it verifies is not claimed.
- The buffering functions behind tx_append are not part of this model: only that an append that fits is whole, and that one that does not fit is short and leaves unspecified contents.
- pageStringExt, intstr_to_fpstr_inplace, z_str3join and number_inplace_trimming are not part of this model: unspecified functions of their inputs, so nothing is said about the decimal text or the page breaks.
- ReviewMeaning.ReviewDeterminesTransaction: a text is compared before it is cut into pages, because the page breaks are unspecified; whether all pages together show a text is not claimed.
- KeyStore.Store.DerivePrime: the remainder branch is not modelled, because 2048 bits are a whole number of hashes.
- KeyStoreRuns.RunKeepsConsistent: stated between calls, with one seed per boot; power loss between two flash writes of one call is not modelled. The initialisation callback is offered only while device_initialized is not set, as app/src/common/main.c:39-45 does; the screen code that offers it is not part of this model.
- TxDigest.GetDigest: if the hash calls are allowed to report errors, they may do so at any point; success is promised only when they are not.
- TxParser.Parse: a buffer of 65536 bytes or more is cut to its size modulo 65536 as in the code, and the round-trip theorems are then about the bytes that are left.
- Display.PrintTag: the C code searches for the NUL of a tag name beyond the name; the model bounds that search by the uploaded bytes.
- Sha384Stream.Context.Finish: the standard defines messages below 2^128 bits; for longer ones the length field wraps as in the code.
- SigningDevice.Device.HandleSign: the review is one decision of the user, and no other command is handled before the reply; status words other than those of SIGN, the version command and the address screen are single branches.
- Screens, menus, heartbeats, stack canaries, logging, PIN checks, the simulator branches (APP_TESTING, the stub of _validateTx), secure_wipe, and the transport of the host.
- The b64url decoding, number formatting and Transaction class of the arweave library on the host: a message is its decoded fields.
