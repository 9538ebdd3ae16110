# lora-py: a verified model

lora-py is a LoRaWAN network server in C++. This project models its core in Dafny and proves what the code
promises. Code that works in place is modelled in place, as methods over arrays and class fields, and each such method
is proved equal to a function of its inputs or of the old state; the properties are lemmas about those functions.
Where a promise does not hold of the code, a lemma says when it does; where only one direction is proved, the last
section says so.

* **Ciphers** (`AesTables`, `Aes`, `AesCode`, `AesVectors`, `Cmac`, `LoraCipher`, `LoraAes`, `CipherStandards`). The
  S-box is the affine map of the field inverse; column mixing is undone by the linearity of multiplication in GF(2^8);
  the two ciphers undo each other for every block and every 176 bytes of round keys (FIPS 197 sections 5.1 and 5.3).
  The key schedule is stated byte by byte for every key, and the example of FIPS 197, round keys and ciphertext, is
  proved. The in-place CMAC loop computes the value of RFC 4493 section 2.4 for every length. The payload cipher of
  LoRaWAN 1.0.2 section 4.3.3 is its own inverse at every length, although its block offset has 16 bits, and has the
  standard keystream. `CipherStandards` states digest and payload cipher once more as the standards do, in one pass and
  with every constant written out.
* **Frames** (`Codec`, `DataFrame`, `DataMessage`, `FrameBytes`, `Join`, `Hex`). Data frames arrive unchanged exactly
  under a stated condition; verification recomposes a received frame and succeeds exactly when its code is right;
  `FrameBytes` says which bytes are sent, which are read as what, and over which bytes the code is taken, with every
  constant, direction and key. A whole join leaves device and server with the keys of LoRaWAN 1.0.2 section 6.2.5.
* **JSON** (`JsonText`, `JsonGrammar`, `JsonStack`, `JsonScanner`, `JsonParser`, `JsonLexemes`, `JsonLayout`,
  `JsonAccepted`, `JsonErrors`, `JsonPrinting`, `JsonFormat`, `JsonWriter`, `JsonWritten`, `JsonRoundTrip`). The reader is
  one loop over a flat stack in which an open container hides the count and kind of its parent, and it unescapes strings
  over its own input. It is proved to compute what a recursive descent computes over the original text, errors and
  positions included. What that descent accepts is characterised without it: documents in writing, with numbers and
  strings in any spelling, whitespace, comments and last commas, each standing for a tree. The reader accepts a text
  with a tree if and only if the text is a document that stands for the tree; its errors are stated one by one. What the
  writer prints is spelled out character by character. Writing a tree, compact or formatted, and reading it back is the
  identity exactly for the trees without doubles that the reader can produce.
* **Message handler** (`HandlerModel`, `HandlerInvariant`, `HandlerRuns`, `HandlerKeys`, `HandlerSteps`, `Handler`). A
  transition system over sessions, application queues, the send queue, pending MAC answers and frame counters. An
  invariant holds after every run; from it follow exactly-once scheduling, order, conservation of MAC answers, and that
  no pair of key and cipher input is used twice, across joins too. `HandlerSteps` states the whole effect of each step on
  queues, sessions and radio with every constant written out, and that a confirmed message leaves its queue only by an
  acknowledgement. The class `Handler` carries a ghost record of the run and is proved to take the steps of the model.
* **Session registry** (`RegistryModel`, `RegistryRuns`, `RegistryExact`, `RegistrySteps`, `Registry`). Devices and
  sessions load each other from a script. The recursion ends because each device is loaded once. With a consistent script devices and
  sessions stay in one-to-one correspondence in every run if and only if the script meets two conditions that are
  stated and shown to be independent.
* **Base64 and gateways** (`Base64`, `Retransmission`), and the **pool allocator** below the JSON reader
  (`PoolAllocator`).

Bytes are integers 0 to 255, and 16- and 32-bit numbers are integers with explicit wrap-around, except in the ciphers
and Base64, which use bit vectors. Random numbers, clocks, the script's answers and the contents of fresh memory are
parameters.

## What the code does not promise

* A message object keeps its encrypted options and data when its counter, address or port is set
  (`src/lora/messages/data.cpp:57-93`). `RoundTrip` states when a frame arrives in terms of these caches (`Current`), and
  `ChangedArrives` for every frame that was composed, changed and composed again: it arrives if and only if the old and
  the new keystream agree over the lengths of its options and data. `ChangedArrivesExactly` turns this into a condition
  on the fields: with one to 255 blocks of data under the same key, neither counter nor address may have changed, so
  every such frame that is composed, given another counter and composed again fails to arrive.
* A frame that names a port without data loses the port (`src/lora/messages/data.cpp:134-136`), and more than 15
  option bytes do not fit the length field; both are part of the condition of `RoundTrip`.
* The count of link check requests is one byte (`src/lora/handler.cpp:389-400`): from the 257th request on a second
  answer is queued. `LinkChecksCounted` gives the number of answers and their count for every number of requests.
* The delay set by an RX timing command is taken from the command byte, not from the byte after it
  (`src/lora/handler.cpp:437`), so it is always 8; the model does the same.
* Time stamps of downlinks have 32 bits while the clock has 64 (`src/semtech/proto.h:70` and
  `src/semtech/proto.cpp:509-511`). A stamp that is zero by truncation is never due, and once the clock has outgrown 32
  bits every check is due at once (`DueExactly`). `TimeoutsRemove` says exactly when a downlink that nothing answers is
  given up, at any rate of checks; `SentIsGivenUp` bounds the time when no check leaves a stamp of zero.
* A session that was made for a device without one is not entered in the index by address
  (`src/apphandler.cpp:109-131`): a query by address does not find it (`CreatedNotFound`). `RunIndexHolds` says for
  every run which live sessions the index holds.
* Two kinds of consistent scripts break the registry. When a session of network zero shares its device address with
  another session and its device is loaded after the other one, that device takes over the other session
  (`src/apphandler.cpp:101-104`); `SharedBreaks` shows this for every such script. When the script leaves one device
  without a session and gives another one a session of network zero, the first may draw the address of the second at
  random, because only loaded sessions are looked at (`src/apphandler.cpp:120-125`); `DrawnBreaks` shows this for every
  such draw of an address that is not shared. `RunKeepsBijection` proves that nothing else breaks it: every run keeps
  the correspondence if and only if the script does neither.
* Integers of magnitude above ten times the threshold plus nine are written but not read back as integers, and the
  least 64-bit integer is written with characters that are no digits; `IntegerWriteThenRead` covers both.

## Model

| member | source | states |
|---|---|---|
| AesTables.SubBytesInverse | src/lora/util/aes/aes.c:79-116 | the two S-box tables undo each other on all 256 bytes, in both orders |
| AesTables.SboxIsAffineOfInverse | src/lora/util/aes/aes.c:79-96 | the S-box is the affine map of FIPS 197 section 5.1.1 applied to the inverse in GF(2^8) |
| AesTables.RconIsPowerOfX | src/lora/util/aes/aes.c:118-121 | each round constant is x times the one before |
| AesTables.XtimeXor | src/lora/util/aes/aes.c:299-302 | doubling in GF(2^8) distributes over addition |
| Aes.MultiplyAdd | src/lora/util/aes/aes.c:325-340 | multiplication by each constant of the two mixing matrices distributes over addition |
| Aes.MixInverse | src/lora/util/aes/aes.c:305-363 | the two column mixings undo each other on every state, in both orders |
| Aes.ShiftInverse | src/lora/util/aes/aes.c:271-406 | the two row shifts undo each other, in both orders |
| Aes.SubInverse | src/lora/util/aes/aes.c:256-378 | the two byte substitutions undo each other, in both orders |
| Aes.AddKeyTwice | src/lora/util/aes/aes.c:242-252 | adding a round key twice changes nothing |
| Aes.InvCipherUndoesCipher | src/lora/util/aes/aes.c:410-458 | the inverse cipher undoes the cipher for every block and every 176 bytes of round keys |
| Aes.CipherUndoesInvCipher | src/lora/util/aes/aes.c:410-458 | the cipher undoes the inverse cipher likewise, which is what a joining device relies on |
| Aes.EncryptDecryptInverse | src/lora/util/aes/aes.c:467-477 | under one key both directions undo each other |
| AesCode.AddRoundKey | src/lora/util/aes/aes.c:242-252 | in place: adds the round key to the block at an offset and touches nothing else of the buffer |
| AesCode.SubBytes | src/lora/util/aes/aes.c:256-266 | in place: substitutes every byte of the block and nothing else |
| AesCode.InvSubBytes | src/lora/util/aes/aes.c:368-378 | in place: substitutes every byte back and nothing else |
| AesCode.ShiftRows | src/lora/util/aes/aes.c:271-297 | the twelve assignments with one temporary rotate row r left by r, and touch nothing else |
| AesCode.InvShiftRows | src/lora/util/aes/aes.c:380-406 | the assignments rotate row r right by r, and touch nothing else |
| AesCode.MixColumns | src/lora/util/aes/aes.c:305-318 | the code, which doubles sums of neighbours, multiplies each column by the matrix of FIPS 197 section 5.1.3 |
| AesCode.InvMixColumns | src/lora/util/aes/aes.c:347-363 | multiplies each column by the inverse matrix |
| AesCode.MixRowAsCoded | src/lora/util/aes/aes.c:305-318 | the sum with one doubling per byte is the matrix row with two constants |
| AesCode.CipherInPlace | src/lora/util/aes/aes.c:410-433 | the round loop overwrites the block with its encryption under the round keys |
| AesCode.InvCipherInPlace | src/lora/util/aes/aes.c:436-458 | the descending round loop overwrites the block with its decryption |
| AesCode.KeyExpansion | src/lora/util/aes/aes.c:151-220 | fills the 176 bytes with the key schedule of FIPS 197 section 5.2, whose bytes AesVectors.ScheduleBytes states |
| AesVectors.ScheduleBytes | src/lora/util/aes/aes.c:151-220 | for every key and every word of the 176 bytes: the first four words are the key; byte j of every fourth later word is byte j of the word four before plus the substituted byte j + 1 of the word before, and the round constant when j is 0; the other words add the two words |
| AesVectors.Words10 | src/lora/util/aes/aes.c:151-220 | the last round key of FIPS 197 appendix A.1; Words0 to Words9 give the others |
| AesVectors.States | src/lora/util/aes/aes.c:410-433 | the state after every round of the example of FIPS 197 appendix B |
| AesVectors.CipherExample | src/lora/util/aes/aes.c:410-458 | the plaintext of FIPS 197 appendix B is encrypted to its ciphertext, and that is decrypted to the plaintext |
| Cmac.SubkeyDoubles | src/lora/util/aes/cmac.c:36-57 | the bytewise shift with conditional addition is multiplication by x in GF(2^128), RFC 4493 section 2.3 |
| Cmac.KeyGen | src/lora/util/aes/cmac.c:29-58 | the two subkeys are the encrypted zero block doubled once and twice |
| Cmac.FillSubkey | src/lora/util/aes/cmac.c:36-57 | one subkey is filled from the block it doubles |
| Cmac.FinishLastBlock | src/lora/util/aes/cmac.c:84-98 | one pass pads an incomplete last block and adds the subkey that belongs to its kind |
| Cmac.OneBlock | src/lora/util/aes/cmac.c:73-103 | one round of the loop extends the chain by a block, or finishes the digest |
| Cmac.AesEcbCmac | src/lora/util/aes/cmac.c:60-104 | the buffer ends up with the RFC 4493 section 2.4 value for every message length, zero and multiples of 16 included |
| CipherStandards.DigestIsStandard | src/lora/util/aes/cmac.c:29-104 | for every message the digest is a left fold over its blocks, the last one with 0x80 and zeros where it is not complete, and with the subkey of its kind; each byte of the two subkeys, with 0x87 |
| LoraCipher.EcbInPlace | src/lora/aes.cpp:20-56 | both whole-vector directions: pad with zeros, then every block on its own |
| LoraCipher.EcbInverse | src/lora/aes.cpp:20-56 | the two directions undo each other block by block |
| LoraCipher.EncryptUndoesDecrypt | src/lora/aes.cpp:20-56 | encrypting what was decrypted, or the reverse, gives the vector padded with zeros |
| CipherStandards.VectorBlock | src/lora/aes.cpp:20-37 | block i of an encrypted vector is the encryption of bytes 16 i to 16 i + 15, missing ones zero |
| LoraCipher.Aes128Cmac | src/lora/aes.cpp:58-65 | the digest of a message under a key |
| LoraCipher.CryptFullBlocks | src/lora/aes.cpp:75-86 | the loop over complete blocks with its 16-bit counter and offset |
| LoraCipher.LoramacDecrypt | src/lora/aes.cpp:67-98 | the code computes the payload cipher for every length, the offset starting again after 65536 bytes |
| LoraCipher.CryptTwice | src/lora/aes.cpp:67-98 | the payload cipher is its own inverse at every length |
| LoraCipher.CryptIsStandard | src/lora/aes.cpp:67-98 | below 65536 bytes each byte is the payload byte plus the keystream byte of LoRaWAN 1.0.2 section 4.3.3, the block number starting again after 255 blocks |
| CipherStandards.PayloadByte | src/lora/aes.cpp:67-98 | byte j of the encrypted payload is byte j exclusive-or byte j mod 16 of the encrypted block 01 00 00 00 00, direction, address, counter, 00, block number |
| CipherStandards.CodeByte | src/lora/messages/data.cpp:95-111 | an integrity code is the first four bytes of the digest |
| LoraCipher.StreamsDiffer | src/lora/aes.cpp:67-98 | from one block on, up to 255, payloads are never encrypted alike under one key with two different counters or addresses |
| LoraAes.CryptTwice | src/lora/aes.cpp:67-98 | the same on the vectors the frame code uses |
| LoraAes.EncryptUndoesDecrypt | src/lora/aes.cpp:20-56 | a body of whole blocks is recovered exactly |
| Codec.ConcatInt | src/lora/util/concat.cpp:24-29 | appends the low bytes of a number, least significant first |
| Codec.ExtractInt | src/lora/util/concat.cpp:15-22 | reads up to four bytes as a little-endian number |
| Codec.FromLeOfLe | src/lora/util/concat.cpp:15-29 | reading a written number gives it back, cut to the bytes written |
| Codec.LeOfFromLe | src/lora/util/concat.cpp:15-29 | writing a read number gives the bytes back |
| Hex.HexToString | src/lora/types.cpp:57-74 | two lower-case digits per byte |
| Hex.StringToHex | src/lora/types.cpp:76-106 | fills the buffer byte by byte, stops when it is full, and gives the number of complete bytes |
| Hex.HexTextBack | src/lora/types.cpp:57-106 | reading the text of a byte string gives every byte back |
| Hex.HexTextInjective | src/apphandler.cpp:86-94 | different identifiers have different texts, so the texts can be map keys |
| Hex.DigitTable | src/lora/types.cpp:57-106 | the characters of all digits when written, and the values of all characters when read, upper case included |
| Hex.HighFirst | src/lora/types.cpp:57-106 | the high half of a byte comes first |
| DataMessage.DataUp.SetCnt | src/lora/messages/data.cpp:69-73 | sets the counter and drops the payload but neither encrypted cache |
| DataMessage.DataUp.SetOpts | src/lora/messages/data.cpp:75-80 | sets the options and drops their cache and the payload |
| DataMessage.DataUp.SetData | src/lora/messages/data.cpp:88-93 | sets the data and drops their cache and the payload |
| DataMessage.DataUp.ComposeMsg | src/lora/messages/data.cpp:113-137 | appends header, options and, when there is data, port and data; fills the caches that are empty |
| DataMessage.DataUp.CalcMic | src/lora/messages/data.cpp:95-111 | the first four bytes of the digest of block B0 (LoRaWAN 1.0.2 section 4.4) and the message; FrameBytes.ComposedBytes spells the block out |
| DataMessage.DataUp.Compose | src/lora/messages/data.cpp:139-145 | the payload is the message followed by its integrity code |
| DataMessage.DataUp.Parse | src/lora/messages/data.cpp:147-178 | takes a payload apart; decrypts only when there is a session |
| DataMessage.DataUp.Verify | src/lora/message.cpp:121-138 | true exactly when the recomposed frame has the same code; the payload is unchanged afterwards |
| DataMessage.DataUp.SetPayload | src/lora/message.cpp:99-103 | stores and parses the payload |
| DataMessage.DataUp.SetDevice | src/lora/message.cpp:88-97 | attaches a session; a message with a payload is parsed again and must verify |
| DataMessage.ReceiveFields | src/lora/message.cpp:88-103 | a received frame under a session: what it carries, and whether it verifies |
| DataMessage.ReparseForNextSession | src/lora/handler.cpp:173-187 | an object that one session refused holds, under the next session, what a new object would |
| DataFrame.RoundTrip | src/lora/messages/data.cpp:95-178 | every message object arrives unchanged if and only if its options are shorter than 16, it names no port without data, and its caches are current; then it verifies |
| DataFrame.ChangedArrives | src/lora/messages/data.cpp:57-93 | a message that was composed, then given another counter, address, port or control byte, and composed again arrives if and only if old and new keystream agree over its options and its data |
| DataFrame.ChangedArrivesExactly | src/lora/messages/data.cpp:57-93 | with one to 255 blocks of data under the same key it arrives if and only if neither counter nor address has changed and its options are shorter than 16 |
| DataMessage.ObjectFits | src/lora/messages/data.cpp:57-178 | after any calls, the encrypted options of a message object are short or as long as its options, which is all that RoundTrip asks |
| DataFrame.ReceivedFields | src/lora/messages/data.cpp:147-178 | what the receiver of a composed message holds, field by field |
| DataFrame.RecomposedMsg | src/lora/message.cpp:121-138 | verification composes exactly the received bytes for the canonical frames and for no others |
| DataFrame.VerifyOverReceivedBytes | src/lora/message.cpp:121-138 | for a canonical frame verification succeeds if and only if the last four bytes are the digest prefix of B0 and the other received bytes |
| FrameBytes.ReceivedBytes | src/lora/messages/data.cpp:147-178 | what a session reads in received bytes: address and counter from their places, options and data decrypted with direction 0 for uplinks and 1 for downlinks, data on port 0 with the network key and on other ports with the application key |
| FrameBytes.VerifiesBytes | src/lora/message.cpp:121-138 | a canonical frame of type 2 or 4 verifies if and only if its last four bytes are the code of 49 00 00 00 00 00, address, counter, 00 00 00, length and all bytes before them; for types 3 and 5 the sixth byte is 1 |
| FrameBytes.ComposedBytes | src/lora/messages/data.cpp:95-145 | every byte that is composed for a message: type, address, flags and option length, counter, encrypted options, port, encrypted data, and the code over block B0 |
| Join.JoinRequest.Compose | src/lora/messages/joinrequest.cpp:51-69 | the 19 bytes with reversed identifiers, followed by the code |
| Join.JoinRequest.Parse | src/lora/messages/joinrequest.cpp:71-83 | reads the identifiers back in order and the 16-bit nonce |
| Join.JoinRequest.Verify | src/lora/message.cpp:121-138 | true exactly when the recomposed request has the same code; the request is unchanged |
| Join.RequestRoundTrip | src/lora/messages/joinrequest.cpp:51-83 | a composed request has 23 bytes, is read back with the low 16 bits of its nonce, and verifies |
| Join.RequestBytes | src/lora/messages/joinrequest.cpp:51-69 | the 19 bytes one by one: both identifiers and the nonce least significant byte first; the other four are their code |
| Join.RequestVerifiesReceived | src/lora/message.cpp:121-138 | a received request verifies if and only if its last four bytes are the digest prefix of a zero header and its next 18 bytes; for 23 bytes with a zero header, of the received bytes |
| Join.JoinAccept.AppendChannels | src/lora/messages/joinaccept.cpp:141-154 | appends the channels before the first zero frequency, and the padding |
| Join.JoinAccept.Compose | src/lora/messages/joinaccept.cpp:130-169 | the header byte and the decryption of fields, channels, padding and code |
| Join.AcceptBodyLength | src/lora/messages/joinaccept.cpp:141-154 | the encrypted part is one block without channels and two with channels |
| Join.DeviceRecovers | src/lora/messages/joinaccept.cpp:130-169 | a device that encrypts the body recovers every field, cut to its width, and finds the code genuine (LoRaWAN 1.0.2 section 6.2.5) |
| Join.ChannelRead | src/lora/messages/joinaccept.cpp:141-148 | each listed channel is read back, cut to 24 bits |
| Join.AnswerDisclosed | src/lora/handler.cpp:100-106 | of the channels of a device the first four are sent, up to the first zero among them, and read by the device in 24 bits; the rest is zero |
| Join.KeysTruncate | src/lora/types.cpp:108-128 | only the low 24, 24 and 16 bits of nonce, network and device nonce reach the keys |
| Join.Session.GenerateSessionKeys | src/lora/types.cpp:108-128 | both network keys are the encryption of 01, nonce, network, device nonce and seven zeros, the application key that with 02, numbers least significant byte first (LoRaWAN 1.0.2 section 6.2.5), under the key of the device of the session; without a device the keys stay |
| Join.DerivedKeysDiffer | src/lora/types.cpp:108-128 | keys derived under one application key differ when the join nonces differ in their low 24 bits |
| RegistryRuns.DeviceKeyAgrees | src/lora/types.cpp:108-128 | as long as devices and sessions correspond, the key of the session's device is the key of the device found for the join |
| Join.AnswerJoin | src/lora/handler.cpp:73-114 | one candidate of a join request: answered exactly when its last four bytes are the code of the others and its nonce does not repeat a last nonce other than zero; the new session with its counters and standard keys, and the answer under the key of the candidate |
| Join.KeyAgreement | src/lora/handler.cpp:73-114 | a whole join: whenever the server answers, the device accepts, reads every field, and, when the session points to it, the keys it derives by the standard are those the server holds |
| JsonScanner.SkipWhitespace | src/semtech/pjson.h:1760-1773 | skips whitespace and comments inside containers; passing the final zero byte is an outcome of its own |
| JsonScanner.SkipAround | src/semtech/pjson.h:1775-1806 | skips whitespace and comments around the document, up to a zero byte |
| JsonScanner.ReadString | src/semtech/pjson.h:2028-2119 | unescapes a string over its own text: the result is the scanned string, nothing before it and nothing unread is changed, and nothing past the final zero byte is read |
| JsonScanner.ReadEscape | src/semtech/pjson.h:2056-2101 | one escape: the bytes it stands for, written at or before the read position |
| JsonScanner.WriteUtf8 | src/semtech/pjson.h:2075-2084 | the bytes of a code, written last byte first |
| JsonScanner.ContinuationByte | src/semtech/pjson.h:2081-2083 | the byte formed by setting one bit and clearing another carries the low six bits of the code |
| JsonScanner.ReadDigits32 | src/semtech/pjson.h:2171-2207 | up to eight digits; the 32-bit value never overflows |
| JsonScanner.ReadDigits64 | src/semtech/pjson.h:2217-2229 | further digits in pairs up to the threshold; the 64-bit value never overflows |
| JsonScanner.ReadNumber | src/semtech/pjson.h:2165-2306 | a number: its value when it is whole, its place otherwise, or the error of its exponent; JsonLexemes.NumeralRead says which texts are which |
| JsonStack.SlotsInElements | src/semtech/pjson.h:1848-1849 | popping the elements by their size in bytes pops exactly the elements |
| JsonStack.RootByBytes | src/semtech/pjson.h:1867-1873 | the byte count of the stack identifies the root |
| JsonStack.OpenRefines | src/semtech/pjson.h:2014-2027 | hiding count and kind of the parent in a new container keeps the decoding of the stack |
| JsonStack.CloseRefines | src/semtech/pjson.h:1841-1892 | closing a container restores count and kind of the parent and goes on as the recursive descent does |
| JsonStack.ScalarRefines | src/semtech/pjson.h:1894-2312 | a finished scalar extends the innermost container |
| JsonParser.Reader.PopElements | src/semtech/pjson.h:1848-1865 | moves the elements on top of the stack into the slot of their container |
| JsonParser.Reader.CloseContainer | src/semtech/pjson.h:1846-1873 | one closing step: the parent again, or the finished root |
| JsonParser.Reader.CloseContainers | src/semtech/pjson.h:1841-1892 | closes containers until a comma or the end of the root, with the errors of that loop |
| JsonParser.Reader.NextElement | src/semtech/pjson.h:1822-1892 | the top of the loop: commas, trailing commas and end characters |
| JsonParser.Reader.ReadElement | src/semtech/pjson.h:1894-2312 | a key, and a scalar or the start of a container |
| JsonParser.Reader.Deserialize | src/semtech/pjson.h:1808-2313 | the whole loop has the outcome of the recursive descent |
| JsonParser.DeserializeInPlace | src/semtech/pjson.h:2315-2352 | reading a buffer in place gives the tree, or the error and its position, that the recursive descent gives on the original text; it gives a tree if and only if the original text is a document in writing that stands for the tree, doubles and comments included |
| JsonGrammar.DocumentReadable | src/semtech/pjson.h:1808-2352 | every document read has a container as root, no zero byte in any string or key, and integers within the bound |
| JsonLexemes.NumeralRead | src/semtech/pjson.h:2165-2306 | every number in writing (a minus, digits, a fraction, an exponent) with no number character behind it: without fraction and exponent and up to 9223372036854775799 it is read as the integer of its digits, otherwise as a double with its whole text, unless its scale exceeds 32 bits, which is a numeric failure |
| JsonLexemes.NumeralOnly | src/semtech/pjson.h:2165-2306 | whatever is read as a number is a number in writing |
| JsonLexemes.PiecesRead | src/semtech/pjson.h:2028-2119 | every string in writing is read as the bytes its characters, escapes (the slash included) and codes (either case of digits, UTF-8 up to three bytes) stand for |
| JsonLexemes.PiecesOnly | src/semtech/pjson.h:2028-2119 | whatever is read as a string is a string in writing that stands for the result |
| JsonLayout.LexemeRead | src/semtech/pjson.h:1894-2312 | a word, number or string in writing is read as the value it stands for, a number with a fraction or an exponent as a double |
| JsonLayout.RealRead | src/semtech/pjson.h:2165-2306 | every number with a fraction or an exponent, followed by no number character, is read as a double with its whole text when its scale fits into 32 bits, and is a numeric failure otherwise |
| JsonLayout.IntOnly | src/semtech/pjson.h:2165-2237 | an integer value comes only from a text of a sign and digits, up to a character that continues no number, and is their value |
| JsonLayout.FillerOver | src/semtech/pjson.h:1760-1773 | whitespace and the comments inside it are skipped up to the next character |
| JsonLayout.FillerOnly | src/semtech/pjson.h:1760-1773 | whatever is skipped is whitespace with comments |
| JsonLayout.ShownBack | src/semtech/pjson.h:1808-2313 | a container in writing, with any spelling, whitespace, comments and last comma, is read as its elements |
| JsonLayout.DocumentRead | src/semtech/pjson.h:1808-2352 | every document in writing is read as the tree it stands for, up to its zero byte |
| JsonAccepted.DocumentOnly | src/semtech/pjson.h:1808-2352 | whatever is read is a document in writing, and the tree is the one it stands for |
| JsonAccepted.ReadsExactly | src/semtech/pjson.h:1808-2352 | the reader accepts a text with a tree and an end if and only if the text is a document in writing that stands for the tree and ends there |
| JsonErrors.StringError | src/semtech/pjson.h:2028-2119 | behind any good pieces of a string a line end, a missing escape or a digit that is not hexadecimal is its error, at that place |
| JsonErrors.ScalarError | src/semtech/pjson.h:1894-2312 | a misspelled word or a character no value starts with is refused where it stands; errors of strings and numbers are passed on |
| JsonErrors.KeyError | src/semtech/pjson.h:1901-2012 | a key without quotes, and a key without a colon |
| JsonErrors.RestError | src/semtech/pjson.h:1822-1892 | a comma behind the opening character, what stands in place of a comma behind a value and behind a container, and a text that ends |
| JsonErrors.ElementError | src/semtech/pjson.h:1894-2312 | the error of a key, a value or an inner container is the error of the container |
| JsonErrors.DocumentError | src/semtech/pjson.h:1775-1820 | a text without a container, the errors inside it, and text behind it |
| JsonPrinting.StringBack | src/semtech/pjson.h:662-691 | unescaping the escaped form of a string without zero bytes gives the string (RFC 8259 section 7) |
| JsonPrinting.NumberBack | src/semtech/pjson.h:1369-1396 | the digits of an integer within the bound are read back as that integer |
| JsonFormat.FormatTree | src/semtech/pjson.h:1431-1521 | the layout of a tree that can be read again is a document in writing that stands for that tree |
| JsonFormat.SerializedDocument | src/semtech/pjson.h:1431-1547 | the whole output of the writer for such a tree is a document in writing that stands for it |
| JsonFormat.WriteThenRead | src/semtech/pjson.h:1431-1547 | a tree without doubles that is written, compact or formatted, and read comes back unchanged if and only if its root is a container, its strings have no zero byte and its integers are within the bound |
| JsonFormat.ReadThenWrite | src/semtech/pjson.h:1808-2352 | whatever text was read, writing its tree and reading that again changes nothing |
| JsonFormat.IntegerWriteThenRead | src/semtech/pjson.h:2165-2237 | a 64-bit integer is read back if and only if its magnitude is at most ten times the threshold plus nine |
| JsonWriter.PutDigits | src/semtech/pjson.h:1371-1387 | forms the digits last first, at most 19 of them |
| JsonWriter.ReversePart | src/semtech/pjson.h:1389-1394 | reverses a part of the buffer in place and nothing else |
| JsonWriter.IntToChars | src/semtech/pjson.h:1369-1396 | the characters of an integer, those of the least one included |
| JsonWriter.VectorPrinter.PrintEscaped | src/semtech/pjson.h:662-691 | appends a C string in quotes with its escapes |
| JsonWriter.VectorPrinter.SerializeLines | src/semtech/pjson.h:1443-1475 | appends an array of scalars in lines of limited length |
| JsonWriter.VectorPrinter.SerializeNode | src/semtech/pjson.h:1431-1521 | appends a container, compact or formatted, as its layout says |
| JsonWriter.VectorPrinter.Serialize | src/semtech/pjson.h:1523-1547 | appends a document with its indentation, final line feed and zero byte |
| JsonWritten.StringPrinted | src/semtech/pjson.h:662-691 | the characters of a printed string, up to its first zero byte, each escape spelled out |
| JsonWritten.NumberPrinted | src/semtech/pjson.h:1369-1396 | the characters of a printed integer, and those of the least one, which are no digits |
| JsonWritten.SerializedText | src/semtech/pjson.h:1431-1547 | the characters of a whole document, compact or formatted: tabs, line feeds, spaces around colons, commas, and the breaking of lines of scalars behind 100 characters |
| JsonRoundTrip.WriteAndRead | src/semtech/pjson.h:1431-2352 | through the code of both sides: the tree that is read from the overwritten buffer is the tree that was written |
| HandlerRuns.MessagesScheduled | src/lora/handler.cpp:200-270 | in every run an unconfirmed message is scheduled exactly once, when it leaves its queue; a confirmed one at least once before it leaves |
| HandlerRuns.ProcessDataKeeps | src/lora/handler.cpp:144-272 | an uplink schedules at most one downlink, however many sessions share its address, and keeps the invariant |
| HandlerRuns.AcceptKeeps | src/lora/handler.cpp:189-271 | an uplink that a session takes schedules one downlink when it is answered and none otherwise |
| HandlerRuns.SentInOrder | src/lora/handler.cpp:346-377 | in every run what was sent is an initial part of what was scheduled, with the answers of its own session added, and the radio got its bytes |
| HandlerRuns.QueueStopsAtStaleHead | src/lora/handler.cpp:346-351 | in every run only a head more than 200 milliseconds late, in 32-bit arithmetic, or a zero clock stops the send queue |
| HandlerRuns.AnswersSentOnce | src/lora/handler.cpp:356-374 | in every run the MAC answers of a session that came up are those sent followed by those pending, in order |
| HandlerRuns.LinkChecksCounted | src/lora/handler.cpp:386-402 | in every run the number of pending link check answers and their count, for every number of requests |
| HandlerRuns.DownlinksIncrease | src/lora/handler.cpp:452-471 | in every run each downlink of a session belongs to a later join than the ones before, or has a greater number in the same join |
| HandlerRuns.NonceAndCounterIncrease | src/lora/handler.cpp:94-112 | in every run the pair of join nonce and frame counter of a session's downlinks strictly increases until a number exceeds 32 bits |
| HandlerRuns.CountersSinceJoin | src/lora/handler.cpp:452-471 | in every run the counters since a join are 0, 1, 2 and so on, modulo 2^32, and modulo 2^16 on the wire |
| HandlerRuns.KeystreamNeverRepeats | src/lora/messages/data.cpp:69-73 | in every run two downlinks of one join, or both before the first join, never use the same cipher input unless 65536 downlinks lie between them |
| HandlerKeys.PairNeverRepeats | src/lora/types.cpp:108-128 | in every run in which a session joins under one application key, two of its downlinks since the first join never use the same pair of key and cipher input, as long as fewer than 65536 downlinks of one join or fewer than 2^24 joins lie between them |
| HandlerKeys.RunKeyed | src/lora/handler.cpp:85-112 | in every run the keys of a session and of its downlinks are those of its last join |
| HandlerRuns.DownlinkArrives | src/lora/handler.cpp:452-484 | in every run a device recovers a downlink from the radio if and only if its answers take less than 16 bytes and it has data or port 0 |
| HandlerRuns.ScanVisitsCommands | src/lora/handler.cpp:380-449 | over any string of whole commands the scan stops at the start of each command, in order, and nowhere else, and does what the commands do one after the other, each on its own |
| HandlerRuns.ScanObeys | src/lora/handler.cpp:380-449 | over any string at all the scan does what the commands at the positions it stops at do, in order |
| HandlerSteps.AckRemoves | src/lora/handler.cpp:200-206 | when a session takes an uplink with bit 5 of the control byte set and the front of its queue is confirmed and was transmitted, exactly that entry is gone before anything is scheduled, and otherwise none; new messages follow at the ends |
| HandlerSteps.ConfirmedLeaves | src/lora/handler.cpp:144-270 | in every run a confirmed message leaves its queue only when an uplink that verifies for its session has bit 5 of its control byte set, while the message is at the front and was transmitted |
| HandlerSteps.UplinkQueues | src/lora/handler.cpp:189-270 | the whole effect of an uplink on all queues and the send queue: whether it is answered, what the downlink carries, its deadline of one second for each second of delay, and the acknowledgement 0x20 |
| HandlerSteps.UplinkSessions | src/lora/handler.cpp:189-271 | the whole effect of an uplink on all sessions: counter, delay and time of its own session, nothing of the others |
| HandlerSteps.UplinkCommands | src/lora/handler.cpp:215-243 | the MAC commands in the data of an uplink on port 0, when it is no repetition, and then those in its options are obeyed |
| HandlerSteps.CommandEffect | src/lora/handler.cpp:380-449 | what each MAC command does, by its number, and how far the scan moves |
| HandlerSteps.LinkCheckEffect | src/lora/handler.cpp:386-402 | the first link check request adds an answer with signal level and count 1, the next ones count up in it |
| HandlerSteps.FirstTaken | src/lora/handler.cpp:144-272 | sessions the uplink does not verify for are passed over, and the first one that answers it is the last that takes it |
| HandlerSteps.ClassCEffect | src/lora/handler.cpp:274-328 | an idle class C session with a message waiting gets a downlink due at once, and its front one more attempt |
| HandlerSteps.SendEffect | src/lora/handler.cpp:353-489 | the bytes the radio gets for the head of the send queue, with the answers of its session behind the data on port 0 and in place of the options on other ports, and what changes in the session and the queues |
| HandlerSteps.TimerEffect | src/lora/handler.cpp:330-378 | the timer serves class C sessions in turn and then sends while that is possible |
| HandlerSteps.JoinEffect | src/lora/handler.cpp:85-112 | a join is refused only when it repeats a last nonce other than zero; otherwise nonce, counters, time and keys of the session are these and nothing else changes |
| HandlerRuns.RunInv | src/lora/handler.cpp:54-489 | the invariant holds after every run of loads, messages, joins, uplinks and timer events |
| HandlerInvariant.ScheduleKeeps | src/lora/handler.cpp:250-268 | scheduling keeps queues and counts consistent |
| HandlerInvariant.LinkCheckKeeps | src/lora/handler.cpp:386-402 | a link check request keeps the answers conserved and the count right, run-over included |
| HandlerInvariant.SendOneKeeps | src/lora/handler.cpp:353-376 | sending the head keeps every part of the invariant |
| HandlerInvariant.JoinKeeps | src/lora/handler.cpp:85-112 | a join keeps it, counters and nonces starting a new join |
| Handler.Handler.Send | src/apphandler.cpp:302-306 | appends a message to the queue of its session |
| Handler.Handler.ProcessLinkCheck | src/lora/handler.cpp:386-402 | counts a request in the pending answer or queues one |
| Handler.Handler.ProcessMacCommand | src/lora/handler.cpp:380-449 | the scan with its index changes in the loop body |
| Handler.Handler.CheckAck | src/lora/handler.cpp:200-206 | removes the front of the queue exactly when bit 5 is set and the front is confirmed and was transmitted; other queues stay |
| Handler.Handler.AcceptUplink | src/lora/handler.cpp:189-271 | acknowledgement, repetition, data, options, and the decision whether to answer |
| Handler.Handler.ProcessUplink | src/lora/handler.cpp:144-272 | tries the sessions with the address of the uplink until one answers |
| Handler.Handler.ProcessClassCSendQueue | src/lora/handler.cpp:274-328 | schedules for every class C session whose queue is not empty and that was idle for a second |
| Handler.Handler.CollectAnswers | src/lora/handler.cpp:356-365 | takes the answers of one session out of the list, in order, and leaves the others in order |
| Handler.Handler.SendDeviceData | src/lora/handler.cpp:451-489 | composes the frame through the message object and counts the downlink |
| Handler.Handler.Flush | src/lora/handler.cpp:330-378 | class C devices first, then the send queue up to a stale head |
| Handler.Handler.ProcessJoin | src/lora/handler.cpp:67-114 | verifies and answers a join request and lets the session of an accepted one take the step of the model |
| RegistryExact.RunKeepsBijection | src/apphandler.cpp:85-277 | for a consistent script: devices and sessions correspond one to one, and the index holds live sessions under their address, after every run with whatever random addresses, if and only if no session of network zero shares its address and none can be drawn at random |
| RegistryExact.SharedBreaks | src/apphandler.cpp:101-104 | two devices whose sessions share an address, the second one of network zero: after the first load everything corresponds, after the second it does not |
| RegistryExact.DrawnBreaks | src/apphandler.cpp:109-131 | a random address that belongs to a device not loaded yet: after the new session everything corresponds, after loading that device it does not |
| RegistryExact.ConditionsNeeded | src/apphandler.cpp:85-277 | neither condition follows from the other: consistent scripts that break each one alone |
| RegistryExact.RunIndexHolds | src/apphandler.cpp:174-277 | in every run with a script that meets both conditions the index holds exactly the live sessions that the script gives to their devices |
| RegistryExact.CreatedNotFound | src/apphandler.cpp:109-131 | right after a device got a new session a query for its address finds nothing |
| RegistryRuns.ChangingScriptKeeps | src/apphandler.cpp:85-277 | a script that changes between operations keeps the correspondence as long as it fits what has been loaded before |
| RegistryRuns.FindInfoKeeps | src/apphandler.cpp:156-171 | a device query that neither shares nor draws an address of another device keeps the correspondence; it finds the device if and only if it was loaded or the script knows it |
| RegistryRuns.FindSessionKeeps | src/apphandler.cpp:243-277 | a session query keeps the correspondence and finds live sessions with the address and network asked for; only a list for any network must not name a session of network zero after others |
| RegistryRuns.InvalidateKeeps | src/apphandler.cpp:136-153 | invalidating a device erases its session and nothing else |
| RegistryRuns.LoadDevice | src/apphandler.cpp:85-133 | loading a device whose session shares no address of network zero loads that session and links both |
| RegistryRuns.LoadedGood | src/apphandler.cpp:174-202 | loading a session keeps the correspondence, also when the device had another session |
| RegistryRuns.CreateGood | src/apphandler.cpp:109-131 | a device without a session gets a new one and everything corresponds; the script contradicts it if and only if it gives the random address to a device |
| RegistryModel.OneFewer | src/apphandler.cpp:85-107 | entering a device leaves one fewer that can be loaded, which ends the mutual recursion |
| RegistrySteps.LoadExactly | src/apphandler.cpp:85-133 | the maps after loading a device with its session: device and session linked, the session last in the index of its address, nothing else changed |
| RegistrySteps.CreateExactly | src/apphandler.cpp:109-131 | the maps after a device without session got one of network zero |
| RegistrySteps.QueryFinds | src/apphandler.cpp:243-277 | what a session query returns, in one network or any, and when it changes nothing |
| RegistrySteps.InvalidateExactly | src/apphandler.cpp:136-229 | the maps after invalidating a device: its entry, its session, the queue of the session and its index entry are gone, and nothing else |
| RegistrySteps.SendExactly | src/apphandler.cpp:302-306 | what is sent to a session waits behind what was sent before |
| Registry.Registry.FindDeviceInfo | src/apphandler.cpp:156-171 | the device query, with the measure under which the four loading methods end |
| Registry.Registry.EnterDevice | src/apphandler.cpp:93-132 | one answer to a device query |
| Registry.Registry.FindDeviceSession | src/apphandler.cpp:243-277 | the session query |
| Registry.Registry.GetSessionFromScript | src/apphandler.cpp:174-202 | the answers to a session query, one after the other |
| Registry.Registry.EraseDeviceSession | src/apphandler.cpp:205-229 | erases a session, its queue and its first entry in the index |
| Base64.DecodeEncode | src/semtech/base64.cpp:19-37 | encoding gives correctly padded text, and decoding it gives the bytes back, for every byte string (RFC 4648 section 4) |
| Base64.Encode | src/semtech/base64.cpp:19-37 | the text has four characters for every three bytes begun |
| Base64.Alphabet | src/semtech/base64.cpp:15-17 | the 64 characters in the order of RFC 4648 table 1 |
| Base64.EncodeGroups | src/semtech/base64.cpp:19-37 | each group of three bytes, as a number of 24 bits, gives the characters of its four parts of six bits from the high ones down, with equals signs at the end (RFC 4648 section 4) |
| Base64.EncodeText | src/semtech/base64.cpp:19-37 | the accumulator loop computes the definition by groups |
| Base64.PlainDecode | src/semtech/base64.cpp:147-186 | the switch decodes every correctly padded text into the destination, and refuses other lengths |
| Base64.ScalarDecode | src/semtech/base64.cpp:204-217 | the loop after the first decoder, resumed between any two groups, completes the decoding of every correctly padded text |
| Base64.DecodersAgree | src/semtech/base64.cpp:147-217 | the two decoders agree on every correctly padded text, wherever the second one resumes |
| Retransmission.AtMostNineteen | src/semtech/proto.cpp:329-394 | in every interleaving a downlink is handed to the gateway at most 19 times, and while it waits the packets so far and the repetitions left add up to 19 |
| Retransmission.RepeatKeeps | src/semtech/proto.cpp:505-527 | a repetition uses up exactly one of those left |
| Retransmission.DueExactly | src/semtech/proto.cpp:509-511 | when an entry is due, with a 32-bit stamp and a 64-bit clock |
| Retransmission.TimeoutsRemove | src/semtech/proto.cpp:505-527 | in any run without a report on its token, at any rate of checks, a downlink leaves the table if and only if there are as many due checks as it has retries |
| Retransmission.EntryAfter | src/semtech/proto.cpp:329-527 | whatever happens but a report on its token, an entry of the table is touched by checks only, and each goes its own way |
| Retransmission.FrequentChecksRemove | src/semtech/proto.cpp:505-527 | checks at most g apart remove an unanswered downlink by the time its retries, each with the waiting time and g, have passed |
| Retransmission.SentIsGivenUp | src/semtech/proto.cpp:376-527 | a downlink is given up by 8004 milliseconds and four times g after it was sent, unless a report comes |
| Retransmission.SpacedDue | src/semtech/proto.cpp:505-527 | among checks more than two seconds apart each one is due until a stamp is zero |
| Retransmission.ReportEnds | src/semtech/proto.cpp:329-351 | in every run: once a gateway reports without collision on a token, the downlink that waited under it is never handed over again |
| Retransmission.SendEffect | src/semtech/proto.cpp:376-397 | the packet of a new downlink, and its entry with four transmissions on a free token |
| Retransmission.ReportEffect | src/semtech/proto.cpp:329-351 | a report without collision forgets the downlink and sends nothing; a collision repeats it 50 milliseconds later, below 800 milliseconds, and forgets it otherwise |
| Retransmission.CheckEffect | src/semtech/proto.cpp:505-527 | a check repeats a downlink that is more than two seconds old while a retry is left, with the same shift, and forgets it then |
| Retransmission.InTokenOrder | src/semtech/proto.cpp:500-528 | the packets of one check of all entries come in the order of their tokens, one for a token at most |
| Retransmission.ProtoHandler.SendData | src/semtech/proto.cpp:376-397 | sends a downlink and remembers it unless its token is busy |
| Retransmission.ProtoHandler.TxAck | src/semtech/proto.cpp:329-351 | a collision shifts and repeats a downlink; any other report, or a shift too far, forgets it |
| Retransmission.ProtoHandler.SelectTimeout | src/semtech/proto.cpp:500-528 | checks every waiting downlink, in the order of the tokens |
| PoolAllocator.Pool.Alloc | src/semtech/pjson.h:195-225 | a new block, apart from all live blocks and inside its chunk: behind the last one, else at the start of the first free chunk when that is large enough, else of new memory that doubles up to eight megabytes; memory that was in use is unchanged |
| PoolAllocator.Pool.Realloc | src/semtech/pjson.h:227-264 | the block keeps its old bytes, in place when it is at the top and the chunk has room, or moved; the contents of all other live blocks are unchanged |
| PoolAllocator.Pool.Reset | src/semtech/pjson.h:267-299 | no block is live, active chunks have become free ones, and after a nonempty pool the free bytes are within the preserve limit, no more chunks being released than that takes |
| PoolAllocator.LiveCut | src/semtech/pjson.h:221-224 | a block cut from the free part of the front chunk is disjoint from every live block |
| PoolAllocator.LiveResized | src/semtech/pjson.h:238-256 | resizing the block at the top keeps all live blocks disjoint and inside |

## Left out

* Sockets, `main.cpp`, logging, the Python bridge, statistics messages, and the text of the gateway's JSON packets.
* The vectorised Base64 decoder, and what the decoders do with text that is not correctly padded: they differ there.
* The values of JSON doubles: which texts are doubles is exact, but a double is known by its text, and writing doubles is
  not modelled. The scale of a double is an unbounded integer in the model.
* JSON texts that end inside a container: the whitespace table contains the zero byte, so the code reads on; the model
  calls this an overrun and claims nothing more.
* The unrolling of loops by four in the scanner of strings and whitespace; the loops are modelled one character at a time.
* The byte representation of JSON values: the stack holds slots whose sizes in bytes are modelled, but not their bytes,
  and a slot is read by its fields.
* `char_buf_print_helper`, which prints into a buffer of fixed size.
* `JoinAccept::parse`, which indexes one byte past the header that was removed; the device's side is modelled instead.
* A second candidate device that also verifies for one join request: the code reuses the answer of the first.
* Dispatch of packets to message classes by their type bits, and radio settings of downlinks (frequency, power, rates).
* Reading a received data frame of less than eight bytes, or one that ends before its options: the code does not check.
* The battery and margin values of a device status answer; only the width of the command is modelled.
* Sessions that are erased while downlinks for them wait.
* Wrap-around of `size_t` when a size within three bytes of 2^64 is rounded up, a block that shrinks although it is not at
  the top of its chunk, and failure of `malloc`.
* The choice of a random address for a new session is a parameter; the script is a parameter at every operation.
* The loop that expires gateways, and the choice of the gateways a downlink goes to: the model hands its bytes to the
  radio.
- RegistryRuns.FindInfoKeeps: asks that the device's session shares no address of network zero and that a random address
  is free and given to no device; RegistryExact.RunKeepsBijection shows that runs need both.
- RegistryRuns.LoadDevice: asks that a session of network zero shares no address, because otherwise another session may
  be found in its place (RegistryExact.SharedBreaks).
- RegistryRuns.FindSessionKeeps: asks that a list for any network does not name a session of network zero after others;
  the converse is proved for runs only.
- RegistryRuns.ChangingScriptKeeps: is one direction, because a changed script may contradict what was loaded before.
- JsonParser.Reader.PopElements: counts bytes without a bound, while the code multiplies in 32 bits; texts with so many
  elements in one container are not covered.
- HandlerRuns.QueueStopsAtStaleHead: leaves out runs in which a session is erased while a downlink for it waits, because
  the code then follows a dangling pointer.
- HandlerKeys.PairNeverRepeats: says nothing about the keys a session was loaded with, because they come from outside.
- DataFrame.ChangedArrivesExactly: asks for a block of data, because shorter parts of two keystreams may agree.
- Retransmission.FrequentChecksRemove: asks that no check leaves a stamp of zero, because such a downlink waits for ever;
  TimeoutsRemove is exact.
- JsonScanner.ReadNumber: gives the place of a double and not its value, because doubles are not modelled.
- JsonWriter.VectorPrinter.SerializeLines: is about trees without doubles, because writing doubles is not modelled.
- JsonWriter.VectorPrinter.SerializeNode: is about trees without doubles, likewise.
- JsonWriter.VectorPrinter.Serialize: is about trees without doubles, likewise.
- HandlerRuns.AnswersSentOnce: compares the identifiers of the answers, because the count inside a link check answer goes
  on changing until it is sent; LinkChecksCounted states that count.
- PoolAllocator.Pool.Realloc: asks for the size the block has now, and leaves out blocks that shrink although they are
  not at the top of their chunk, because the code would copy past the end of the new one.
- Base64.PlainDecode: promises the result only for correctly padded text, because the code shifts signed characters and
  gives other bytes than the scalar loop for characters outside the alphabet.
- FrameBytes.VerifiesBytes: is stated for canonical frames only, as DataFrame.VerifyOverReceivedBytes.
- FrameBytes.ComposedBytes: is about messages whose caches are empty, because a message object keeps caches that its setters
  do not clear; DataFrame.RoundTrip is about all of them.
- DataFrame.VerifyOverReceivedBytes: is stated for canonical frames only, because for the others verification recomposes
  other bytes than were received, as RecomposedMsg states.
