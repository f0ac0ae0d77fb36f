# A model of the rtw88 station for macOS, with proofs

The repository replaces the Linux mac80211 layer with a station of its own, nearly all of it in
`src/kext/RTW88IEEE80211.cpp`. This project models that station in Dafny and proves what it is for:

- **Cryptography** (`Aes`, `AesCode`, `KeyWrap`, `Sha1Spec`, `Sha1`, `Sha1Stream`, `KeyDerivation`, `Kde`,
  `AesExample`, `Pbkdf2Example`). The
  functions of FIPS 197, FIPS 180-4, RFC 2104, RFC 8018 and RFC 3394 are written down as specifications, the in-place,
  buffered and unrolled code as methods on arrays and classes, and the code is proved to compute the specification.
  The repository has neither AES encryption nor key wrapping; both exist here as specifications that the code is
  proved to invert. The worked examples of FIPS 197 and RFC 6070 are proved of the specifications, and RFC 3394's two
  forms of the key wrap to agree.
- **The connection and its keys** (`Eapol`, `StationSpec`, `StationSafety`, `Handshake`, `Passphrase`, `Links`,
  `CcmpNumbers`, `CcmpRuns`, `Attempts`, `Station`). `StationSpec` gives each event (command, timer, received frame, late connect thread) as a step on the
  state; `StationSafety` proves what holds in every reachable state and of every frame sent; `Handshake` proves
  agreement with the access point, `Passphrase` where the keys come from, `CcmpNumbers` under what provisos key and
  packet number never come twice, and `CcmpRuns` that each of these is needed;
  `Attempts` says what the access point's answers, timeouts and leaving do; class `Station` keeps the fields of the driver and refines every step, down to the bytes of the frames.
- **The receive reordering buffer** (`ReorderSpec`, `ReorderExact`, `ReorderRuns`, `Reorder`). Windows on absolute
  sequence numbers with theorems over all runs, exactly what each operation releases, keeps and gives up, and the classes with 64 slots and 12-bit numbers that refine them.
- **Frames and tables** (`DataFrame`, `AirFormat`, `OnAir`, `OffAir`, `Replies`, `Management`, `Amsdu`, `Skb`, `Beacon`,
  `BssTable`, `BssList`, `Dma`): encapsulation and delivery, all frames also as the other end reads and writes them, the A-MSDU splitter, beacons, the table of networks with aging, its serialization and the program that
  reads it, and the linked lists of DMA buffers. `Driver` joins the connection to the reorder windows,
  `Networks` the scan table to connecting and to the list.

`Bytes`, `Options` and `CipherSuites` hold what the others share. `dafny verify dfyconfig.toml` checks everything.

Outcomes of allocations, of copies and of calls into the Linux driver, random nonces, signal strength and the time at
which a thread runs are parameters of the events, and the theorems hold for all of them. Only the lemmas that exhibit a
run (`Passphrase.LinkWithoutMessage1`, `Driver.CarriedOver` and those of `CcmpRuns`) pick outcomes. One event is one step.

Where the code and its own words differ, the model follows the code. `src/kext/RTW88IEEE80211.hpp:253` says that the
reorder slots are indexed by the sequence number modulo the window size; the code uses modulo 64. A group key over 32
bytes does not fail the handshake, it is passed over (`Handshake.Message3Installs`).

Four properties one would expect are false of the code as it stands.

- That a WPA2 link is keyed by the passphrase fails without a message 1 (`Passphrase.LinkWithoutMessage1`), and holds with
  one (`Passphrase.LinkComesUp`).
- That key and packet number never come twice fails in four ways, each shown by a run from power-up: the connect thread
  runs over an installed key (`CcmpRuns.ReinstallationRepeats`), keys are installed without a message 1
  (`CcmpRuns.ZeroKeyRepeats`), nonces come again (`CcmpRuns.NoncesRepeat`), or 2^48 frames go out under one installation
  (`CcmpRuns.NumbersRunOut`). The first two are missing guards of the code, the others limits of the protocol. There is
  no fifth: with all four excluded it holds over every run (`CcmpNumbers.NoPacketNumberTwice`,
  `CcmpRuns.SufficesExactlyIfAll`). Within one connection only the first and the last matter: with fewer than 2^48
  frames it holds exactly if no run of the connect thread is to come (`CcmpRuns.RepeatsExactlyIfPending`).
- That no frame of one connection is handed up in the next fails if no peer record could be allocated
  (`Driver.CarriedOver`), and holds otherwise (`Driver.NothingCarriedOver`, `Driver.ConnectHolds`).
- That the system is told of an active link only while there is a connection fails after exactly three events: the
  connect thread running over a connection, a start over one, and a stop of a connected station without power
  (`Attempts.LinkStaysTrue`).

## Model

| member | source | states |
|---|---|---|
| GaloisField.AesMul | src/kext/RTW88IEEE80211.cpp:298-312 | the shift-and-add loop of `aes_mul`, with `aes_xtime` reduction, yields the product in GF(2^8) for all pairs of bytes |
| GaloisField.SboxesInverse | src/kext/RTW88IEEE80211.cpp:260-296 | the two AES tables invert each other, both ways, for every byte |
| GaloisField.SboxIsFips197 | src/kext/RTW88IEEE80211.cpp:260-277 | the S-box table is the one FIPS 197 defines: for every byte some field inverse (0 for 0) whose affine image is the table entry |
| GaloisField.MixInverse | src/kext/RTW88IEEE80211.cpp:351-360 | the coefficients 14, 11, 13, 9 invert 2, 3, 1, 1 over the field, both ways |
| AesSpec.CipherInverse | src/kext/RTW88IEEE80211.cpp:363-380 | for every key and block: the inverse cipher of FIPS 197 section 5.3 undoes the cipher of section 5.1, and the cipher undoes it |
| AesExample.Key10 | src/kext/RTW88IEEE80211.cpp:314-331 | the worked example of FIPS 197 appendix A.1, word by word to the last round key |
| AesExample.CipherExample | src/kext/RTW88IEEE80211.cpp:363-380 | the worked example of FIPS 197 appendix B, round by round: what the inverse cipher is the inverse of is AES |
| Aes.KeyExpand | src/kext/RTW88IEEE80211.cpp:314-331 | the in-place expansion leaves the 44 words of the FIPS 197 key schedule |
| Aes.InvShiftRowsInPlace | src/kext/RTW88IEEE80211.cpp:338-344 | the byte swaps leave InvShiftRows of the old state |
| Aes.InvSubBytesInPlace | src/kext/RTW88IEEE80211.cpp:346-349 | leaves InvSubBytes of the old state |
| Aes.InvMixColumnsInPlace | src/kext/RTW88IEEE80211.cpp:351-361 | leaves InvMixColumns of the old state |
| Aes.AddRoundKey | src/kext/RTW88IEEE80211.cpp:333-336 | leaves the old state XOR the round key at the offset |
| Aes.DecryptBlock | src/kext/RTW88IEEE80211.cpp:363-380 | returns the inverse cipher of the block; enciphering the result gives the block back, and a block that is an encipherment of something decrypts to that |
| KeyWrap.AddCounter | src/kext/RTW88IEEE80211.cpp:403-404 | the loop over the low bytes leaves the integrity register XOR the big-endian 64-bit step counter |
| KeyWrap.UnwrapInvertsWrap | src/kext/RTW88IEEE80211.cpp:382-420 | for every KEK, every input and every text of 1 to 32 blocks: unwrapping yields the text if and only if the input is its wrap by RFC 3394 section 2.2.1 |
| KeyWrap.WrapByShifting | src/kext/RTW88IEEE80211.cpp:382-420 | the wrap in the indexed form agrees with the other form of RFC 3394 section 2.2.1, in which the registers shift and the steps count from 1 to 6n, for every key and text |
| KeyWrap.UnwrapSize | src/kext/RTW88IEEE80211.cpp:382-420 | an accepted input has 2 to 33 blocks and yields one block less |
| KeyWrap.UnwrapKey | src/kext/RTW88IEEE80211.cpp:382-420 | the in-place loops of `aes_unwrap_128` decide and compute exactly that: the result is some text if and only if the input is the wrap of it |
| Kde.ExtractGtk | src/kext/RTW88IEEE80211.cpp:443-469 | the element walk terminates in bounds on all bytes and yields the key and index of the first group key element, if its key has at most 32 bytes |
| Kde.FirstGtkFound | src/kext/RTW88IEEE80211.cpp:443-469 | whenever the walk finds a group key element, the bytes are a chain of other elements, that element, and a rest |
| Kde.GtkDelivered | src/kext/RTW88IEEE80211.cpp:449-466 | elements holding no group key, then one, then any bytes: its key and two-bit index come out if the key has at most 32 bytes, nothing otherwise |
| Kde.GtkComesFromFirstElement | src/kext/RTW88IEEE80211.cpp:449-466 | conversely, any key that comes out is that of the first group key element of the data |
| Kde.WrappedGtkDelivered | src/kext/RTW88IEEE80211.cpp:2541-2563 | end to end: key data wrapped under a KEK unwraps to itself and yields the group key the access point put in |
| Sha1.ExpandWord | src/kext/RTW88IEEE80211.cpp:59-62 | the rolling 16-word schedule yields word t of the 80-word schedule of FIPS 180-4 and keeps the last 16 |
| Sha1.Transform | src/kext/RTW88IEEE80211.cpp:70-100 | the unrolled rounds with rotated register names are the compression function of FIPS 180-4 section 6.1.2 |
| Sha1Stream.CountsUpdate | src/kext/RTW88IEEE80211.cpp:112-116 | the carry test on the low count word is right: the two words stay the bit count modulo 2^64 for every length |
| Sha1Stream.Context.Update | src/kext/RTW88IEEE80211.cpp:111-129 | after an update the context stands for everything fed before followed by the new bytes |
| Sha1Stream.Context.Final | src/kext/RTW88IEEE80211.cpp:131-146 | yields the FIPS 180-4 digest of everything fed; the padding loop ends at 56 modulo 64 |
| Sha1Stream.DigestOfPieces | src/kext/RTW88IEEE80211.cpp:111-146 | however a message is cut into updates, the digest is that of the concatenation |
| Sha1Spec.PadZerosSmallest | src/kext/RTW88IEEE80211.cpp:136-141 | the padding stops at the smallest number of zero bytes that leaves room for the length |
| Sha1Spec.HashConcat | src/kext/RTW88IEEE80211.cpp:111-129 | hashing whole chunks one after the other is hashing their concatenation |
| KeyDerivation.HmacSha1 | src/kext/RTW88IEEE80211.cpp:148-182 | leaves the RFC 2104 HMAC of the old data in the output array, also when data and output are the same array |
| KeyDerivation.DeriveBlock | src/kext/RTW88IEEE80211.cpp:193-214 | the in-place chain of 4096 HMACs is block T of PBKDF2 |
| KeyDerivation.DerivePmk | src/kext/RTW88IEEE80211.cpp:184-215 | the first 32 bytes of PBKDF2 (RFC 8018 section 5.2) over passphrase and name with 4096 iterations; a name over 120 bytes is cut there |
| KeyDerivation.Pbkdf2Is | src/kext/RTW88IEEE80211.cpp:210-214 | the master key is block 1 and the first twelve bytes of block 2 |
| Pbkdf2Example.Pbkdf2Of | src/kext/RTW88IEEE80211.cpp:148-215 | the second worked example of RFC 6070 (password, salt, two iterations), through SHA-1, HMAC and PBKDF2 |
| KeyDerivation.PtkSymmetric | src/kext/RTW88IEEE80211.cpp:217-258 | swapping the two addresses, or the two nonces, does not change the pairwise key |
| KeyDerivation.LessIsLower | src/kext/RTW88IEEE80211.cpp:225-243 | the order the addresses and nonces are sorted by is that of memcmp: at the first byte where they differ, the lower one |
| KeyDerivation.LessTotal | src/kext/RTW88IEEE80211.cpp:225-243 | and it is total |
| KeyDerivation.PtkDataSorted | src/kext/RTW88IEEE80211.cpp:221-243 | the data of the PRF begins with the lower address and the higher, then the lower nonce and the higher |
| KeyDerivation.PtkIs | src/kext/RTW88IEEE80211.cpp:244-257 | the PTK is 64 bytes of four HMACs over the label, a zero byte, that data and the counters 0 to 3 |
| KeyDerivation.DerivePtk | src/kext/RTW88IEEE80211.cpp:217-258 | computes the PRF of label, sorted addresses and sorted nonces, cut to 64 bytes |
| Eapol.SignedPasses | src/kext/RTW88IEEE80211.cpp:422-441 | a frame signed under a key passes the MIC check under that key |
| Eapol.MicUnique | src/kext/RTW88IEEE80211.cpp:422-441 | of frames that differ in the MIC only at most one passes, and it has the first 16 bytes of the HMAC there |
| Eapol.FieldsRead | src/kext/RTW88IEEE80211.cpp:2503-2517 | version, length, key information, replay counter, nonce, key data length and key data are read where frames carry them |
| Eapol.EapolMicOk | src/kext/RTW88IEEE80211.cpp:422-441 | true exactly when a copy could be made and the MIC field is the HMAC of the frame with that field zero |
| Eapol.BuildReply | src/kext/RTW88IEEE80211.cpp:2592-2635 | message 2 or 4 laid out in place, its HMAC taken and put in, is the signed frame |
| Replies.ReplyRead | src/kext/RTW88IEEE80211.cpp:2592-2635 | the access point reads in messages 2 and 4: version, lengths, key information bit by bit, counter, nonce, MIC, and the RSN element or nothing |
| Replies.RsnElementRead | src/kext/RTW88IEEE80211.cpp:2592-2612 | the element of message 2 read like one of a beacon: one RSN element of version 1 with exactly CCMP and the pre-shared key, by which a station selects the group cipher of the network |
| Handshake.Message1Answered | src/kext/RTW88IEEE80211.cpp:2521-2529 | message 1 with anything behind it, whatever allocations and copies do: the station derives the key the access point derives with the roles swapped; message 2 goes out exactly if there is a peer record, a buffer and a copy, and the access point then accepts it with its own counter |
| Handshake.Message3Installs | src/kext/RTW88IEEE80211.cpp:2530-2583 | message 3 signed and wrapped under the current key, whatever allocations, driver calls and copies do: without memory for the MIC check nothing happens; else it connects if and only if the pairwise key goes in and the group key goes in or is passed over (empty or over 32 bytes), also when message 4 cannot be sent; the keys in use are those of the message |
| Handshake.HandshakeAgrees | src/kext/RTW88IEEE80211.cpp:2503-2584 | the whole exchange, for all nonces, counters, elements, trailing bytes and outcomes of allocations, driver calls and copies: both ends agree on the pairwise key, replies that go out are accepted, and the station ends as for message 3 with the temporal key of the access point |
| Handshake.OnlyAuthenticConnects | src/kext/RTW88IEEE80211.cpp:2530-2583 | a WPA2 link comes up in no other way than by a message 3 whose MIC is right under the pairwise key the station holds, be it derived or still zeros, and whose key data, if marked encrypted, is a wrap under it |
| Passphrase.StepKeyed | src/kext/RTW88IEEE80211.cpp:2239-2246 | every event keeps: while handshaking or connected with WPA2 the master key is the PBKDF2 of passphrase and name; and the PTK is the one derived from it and the two nonces if a message 1 was handled since keys were last cleared, else zeros |
| Passphrase.SamePassphraseSameKey | src/kext/RTW88IEEE80211.cpp:2521-2524 | in every reachable state in which a message 1 was handled since keys were last cleared, the station's PTK is the one an access point with the same passphrase for the same name derives with the roles swapped; in every other it is zeros |
| Passphrase.LinkComesUp | src/kext/RTW88IEEE80211.cpp:2566-2581 | in every run, a WPA2 link that comes up does so by an authentic message 3, with bytes 32 to 47 of the PTK installed; that PTK is the passphrase's exactly under the condition that a message 1 was handled since keys were last cleared, and zeros otherwise |
| Passphrase.LinkWithoutMessage1 | src/kext/RTW88IEEE80211.cpp:2530-2535 | that every link is keyed by the passphrase is false of the code: for every network and passphrase, from power-up, a message 3 without a message 1 before it brings the link up under a temporal key of zeros |
| StationSafety.StepKeeps | src/kext/RTW88IEEE80211.cpp:2503-2584 | every event keeps the invariant of the connection, whatever allocations and driver calls do; what it sends is keyed as the invariant says and moves the packet number forward |
| StationSafety.ReachableSafe | src/kext/RTW88IEEE80211.cpp:1986-2022 | in every reachable state, also when the connect thread fires late: no scan was started from a connection, connected implies link active, and connected with WPA2 implies a pairwise key equal to bytes 32 to 47 of the current PTK |
| StationSafety.FireKeeps | src/kext/RTW88IEEE80211.cpp:2024-2123 | the connect thread may run in any later state: it keeps the invariant although it does not look at the state |
| StationSafety.NeverInTheClear | src/kext/RTW88IEEE80211.cpp:921-937 | every data frame but EAPOL that a reachable WPA2 station sends is marked protected on the air and carries the temporal key of its current PTK |
| StationSafety.PacketNumbers | src/kext/RTW88IEEE80211.cpp:2957-2961 | over every run the protected frames are strictly ordered by installation and by number within it, and the 48-bit packet number is that number modulo 2^48 |
| StationSafety.PacketNumberReuse | src/kext/RTW88IEEE80211.cpp:721-735 | two protected frames under one installation share a packet number if and only if a multiple of 2^48 frames lies between them; the same key installed twice is the subject of `CcmpNumbers` |
| OnAir.SentAndRead | src/kext/RTW88IEEE80211.cpp:2899-3019 | exactly when a data frame goes out, and how its receiver reads it: frame control, addresses, sequence number, protection exactly for WPA2 with a key and other than EAPOL, packet number and key ID of the CCMP header, ethertype and payload; and the next frame has the next numbers |
| OnAir.PacketNumbersOnAir | src/kext/RTW88IEEE80211.cpp:2957-2971 | over every run the packet numbers read from the air bytes are those of the frames within their installation |
| CcmpNumbers.NoPacketNumberTwice | src/kext/RTW88IEEE80211.cpp:2957-2961 | from power-up, in every run: no two protected frames share key and packet number, under four provisos: the connect thread never runs while a pairwise key is in, nonces give new temporal keys, keys are installed only after a message 1, and fewer than 2^48 frames go out under an installation |
| OnAir.NoPacketNumberTwiceOnAir | src/kext/RTW88IEEE80211.cpp:2957-2971 | the same, on the packet numbers read from the air bytes |
| CcmpNumbers.OneConnectionApart | src/kext/RTW88IEEE80211.cpp:2024-2136 | a connected station none of whose connect threads is still to run: until the next connect command no packet number comes twice, if fewer than 2^48 frames are sent; nothing is asked of nonces, and nothing of where its key is from |
| CcmpRuns.ReinstallationRepeats | src/kext/RTW88IEEE80211.cpp:2120-2122 | without the first proviso that is false of the code: from power-up, for every network, passphrase and handshake, a connect thread that runs late leads the connected station back to the handshake with its key in; the same message 3 installs it again, and a second packet goes out with the key and packet number of the first |
| CcmpRuns.NoncesRepeat | src/kext/RTW88IEEE80211.cpp:2519-2524 | without the second: two connections with the same nonces do the same |
| CcmpRuns.ZeroKeyRepeats | src/kext/RTW88IEEE80211.cpp:631-652 | without the third: two connections made by a message 3 without a message 1, both under a temporal key of zeros, do the same; no connect thread runs over a key |
| CcmpRuns.NumbersRunOut | src/kext/RTW88IEEE80211.cpp:2957-2961 | without the fourth: packet number 1 comes back after 2^48 frames |
| CcmpRuns.SufficesExactlyIfAll | src/kext/RTW88IEEE80211.cpp:2957-2961 | of the four provisos, a choice suffices over all runs from power-up if and only if it is all four |
| CcmpRuns.RepeatsExactlyIfPending | src/kext/RTW88IEEE80211.cpp:2029-2123 | a connected WPA2 station with a peer record and a packet number left, its key derived or zeros, can come to repeat a packet number within 2^48 frames and before it connects anew if and only if a run of its connect thread is still to come |
| Station.Station.ClearKeys | src/kext/RTW88IEEE80211.cpp:631-652 | both keys, the PTK and the packet number are gone, nothing else changes |
| Station.Station.ReleaseSta | src/kext/RTW88IEEE80211.cpp:654-668 | the peer and the QoS sequence number go together |
| Station.Station.InstallKey | src/kext/RTW88IEEE80211.cpp:682-736 | refuses wrong lengths untouched; otherwise the old key is out, and the new one in with packet number zero exactly when memory and driver agree |
| Station.Station.TxDataFrame | src/kext/RTW88IEEE80211.cpp:2899-3019 | hands the driver exactly the encapsulation of the Ethernet frame, protected and numbered as the state demands, or nothing |
| Station.Station.SendEapolKey | src/kext/RTW88IEEE80211.cpp:2586-2641 | the state and frame of sending message 2 or 4 |
| Station.Station.HandleEapol | src/kext/RTW88IEEE80211.cpp:2503-2584 | the state and frames the event model gives for an EAPOL frame, for all bytes |
| Station.Station.OutputPacket | src/kext/RTW88IEEE80211.cpp:921-937 | the output event of the model, with the bytes it puts on the air; from a WPA2 station in a safe state every frame but EAPOL is marked protected and goes under the temporal key |
| Station.Station.Start | src/kext/RTW88IEEE80211.cpp:742-837 | the start event of the model, with its failures, and the invariant kept |
| Station.Station.Stop | src/kext/RTW88IEEE80211.cpp:839-871 | the stop event of the model |
| Station.Station.DoDisconnect | src/kext/RTW88IEEE80211.cpp:2465-2498 | the disconnected state of the model |
| Station.Station.CmdDisconnect | src/kext/RTW88IEEE80211.cpp:2427-2432 | the disconnect event of the model |
| Station.Station.CmdPowerOn | src/kext/RTW88IEEE80211.cpp:2434-2440 | the power-on event of the model |
| Station.Station.CmdPowerOff | src/kext/RTW88IEEE80211.cpp:2442-2463 | the power-off event of the model |
| Station.Station.AbortActiveScan | src/kext/RTW88IEEE80211.cpp:1733-1764 | an aborted scan ends in the state it came from, unless a channel-by-channel scan is still running |
| Station.Station.ScanDone | src/kext/RTW88IEEE80211.cpp:1793-1802 | the state a finished scan leaves |
| Station.Station.CmdScan | src/kext/RTW88IEEE80211.cpp:1804-1913 | the scan event of the model |
| Station.Station.ManualScanEnds | src/kext/RTW88IEEE80211.cpp:1968-1979 | the end of the channel-by-channel scan |
| Station.Station.CmdConnect | src/kext/RTW88IEEE80211.cpp:1986-2022 | the connect event of the model |
| Station.Station.ConnectThreadRuns | src/kext/RTW88IEEE80211.cpp:2024-2027 | the delayed authentication, in whatever state it runs |
| Station.Station.ProcessAuth | src/kext/RTW88IEEE80211.cpp:979-1009 | the authentication response event of the model |
| Station.Station.ProcessAssocResponse | src/kext/RTW88IEEE80211.cpp:2138-2254 | the association response event of the model; a WPA2 station derives its master key here |
| Station.Station.ProcessDeauth | src/kext/RTW88IEEE80211.cpp:1027-1062 | the deauthentication event of the model |
| Station.Station.OnTimer | src/kext/RTW88IEEE80211.cpp:3093-3132 | the timer event of the model |
| Station.Station.ProcessRxData | src/kext/RTW88IEEE80211.cpp:1269-1299 | a data frame outside any block-ack agreement: to the handshake or up the stack |
| Station.Station.RxFrame | src/kext/RTW88IEEE80211.cpp:943-1083 | every frame off the air does what the event it stands for does, sends what that sends, hands up what the frame holds, and keeps the invariant |
| OffAir.ManagementReceived | src/kext/RTW88IEEE80211.cpp:965-1082 | a management frame by its subtype, with any flags, addresses, body: which event it is, with its own addresses and body, or none |
| OffAir.DeauthFrame | src/kext/RTW88IEEE80211.cpp:1027-1062 | a deauthentication or disassociation frame ends the connection exactly if it is from the target and addressed to the station or to all, and then all keys are forgotten |
| OffAir.DataReceived | src/kext/RTW88IEEE80211.cpp:1269-1299 | a data frame with any header: an EAPOL event exactly while shaking hands, else up the stack, and nothing unless the station may receive |
| OffAir.OthersIgnored | src/kext/RTW88IEEE80211.cpp:956-962 | frames that are neither management nor data are nothing to the station |
| Attempts.AuthAnswered | src/kext/RTW88IEEE80211.cpp:979-1009 | an authentication response with any algorithm, sequence number and trailing bytes: the waiting station goes on to associate exactly if its target says status 0, else gives up |
| Attempts.AuthCutShort | src/kext/RTW88IEEE80211.cpp:998-1009 | a response too short for a status counts as success |
| Attempts.AssocAnswered | src/kext/RTW88IEEE80211.cpp:2138-2254 | an association response with any capabilities and association ID: status 0 from the target joins, with WPA2 under the master key of passphrase and name; any other status ends the attempt |
| Attempts.AssocCutShort | src/kext/RTW88IEEE80211.cpp:2157-2161 | one too short ends the attempt |
| Attempts.Unanswered | src/kext/RTW88IEEE80211.cpp:3093-3132 | without answers, waiting for association or the handshake ends with the first timeout, and waiting for authentication is never given up |
| Attempts.TimeoutIs | src/kext/RTW88IEEE80211.cpp:3093-3132 | what one timeout does in each state; that of a handshake forgets all keys and the peer record |
| Attempts.LeavingForgets | src/kext/RTW88IEEE80211.cpp:631-668 | every way of leaving forgets pairwise key, group key, PTK and packet number |
| Attempts.ScanStarts | src/kext/RTW88IEEE80211.cpp:1804-1913 | exactly when a scan starts, by firmware or by hand, and that it touches nothing else |
| Attempts.ScanUndone | src/kext/RTW88IEEE80211.cpp:1733-1802 | however a scan ends the station is as before |
| Attempts.StopThenStart | src/kext/RTW88IEEE80211.cpp:742-871 | what stopping and starting leave of hardware and power |
| Attempts.OffThenOn | src/kext/RTW88IEEE80211.cpp:2434-2463 | powering off and on again |
| Attempts.LinkStaysTrue | src/kext/RTW88IEEE80211.cpp:839-871 | every event keeps the link status true to the connection, except exactly three, after which it stays active without one |
| Driver.DisconnectHolds | src/kext/RTW88IEEE80211.cpp:654-668 | after a disconnect command no frame is held in a reorder window if there was a peer record, and every frame stays held if there was none |
| Driver.DeauthHoldsNothing | src/kext/RTW88IEEE80211.cpp:1053-1057 | after a deauthentication that ends the connection no frame is held |
| Driver.ConnectHolds | src/kext/RTW88IEEE80211.cpp:1986-2022 | a connect command that gets as far as its target leaves no frame held if there was a peer record, and every one if there was none |
| Driver.RunOfBoth | src/kext/RTW88IEEE80211.cpp:1269-1299 | any mix of connection events, block-ack agreements, numbered data frames and hole timers is a run of the connection and a run of the windows, so what holds over all runs of either holds over these |
| Driver.NothingCarriedOver | src/kext/RTW88IEEE80211.cpp:654-668 | over every such run from power-up in which each association made its peer record: a new connection starts without windows, and all frames handed up from then on came in during it |
| Driver.CarriedOver | src/kext/RTW88IEEE80211.cpp:2173-2178 | without a peer record that is false of the code: after a run from power-up, the connect command leaves a frame of the old connection held |
| Networks.ConnectsAsAnnounced | src/kext/RTW88IEEE80211.cpp:1986-2013 | after any history of scans, connecting by name aims at a network that one of the beacons heard announced under that name: its address, its name as long as the element says, WPA2 exactly when that beacon has an RSN element the driver can select, the group cipher that element gives, and the master key of passphrase and that name |
| Networks.CmdConnect | src/kext/RTW88IEEE80211.cpp:1986-2022 | the connect command with its lookup in the scan table |
| Networks.ShownAfterScans | src/kext/RTW88IEEE80211.cpp:3167-3207 | after any history of scans and for every capacity, the program shows the longest prefix of the table that fits, every address once, and each row is address, name and cipher of a beacon heard |
| Networks.CmdGetBssList | src/kext/RTW88IEEE80211.cpp:3167-3207 | the list command writes the reply for the scan table |
| ReorderSpec.NumberIsTrue | src/kext/RTW88IEEE80211.cpp:1483-1488 | if the sender's number is within 2048 of the head, the frame is given that number, or is dropped exactly when it is older than the head |
| ReorderSpec.InputKeeps | src/kext/RTW88IEEE80211.cpp:1469-1531 | an arriving frame keeps the window sound, is neither lost nor doubled, releases in increasing order, and unless stale leaves the head slot empty |
| ReorderSpec.FlushKeeps | src/kext/RTW88IEEE80211.cpp:1541-1577 | the hole timer keeps the window sound, loses nothing, releases in order, and releases something whenever it may |
| ReorderExact.StaleExactly | src/kext/RTW88IEEE80211.cpp:1483-1488 | a sequence number is stale exactly if none of the 2048 numbers from the head on agrees with it |
| ReorderExact.InputExact | src/kext/RTW88IEEE80211.cpp:1490-1522 | an arriving frame: the window slides only so far that the frame is its last number, then past the frames that are there; all frames below the new head are released in order, the others stay, and the frame is freed exactly if its number was taken |
| ReorderExact.FlushExact | src/kext/RTW88IEEE80211.cpp:1550-1568 | the timer gives up the numbers below the first held frame and no others, and releases the run that starts there, to the first gap or as far as there is room |
| ReorderExact.RunPasses | src/kext/RTW88IEEE80211.cpp:1469-1577 | over every run: a number the head has passed was released, or there is the event that gave it up, a frame at least a window size ahead of it or the timer while a later frame was held |
| ReorderExact.TimerSetExactly | src/kext/RTW88IEEE80211.cpp:1523-1577 | exactly when the timer is set, and that one firing hands up at most 64 frames |
| ReorderExact.AgreementWindow | src/kext/RTW88IEEE80211.cpp:1415-1436 | after an agreement the frame with its starting number is due; those up to the agreed window size ahead wait, the next one makes the window slide |
| ReorderExact.StraightOn | src/kext/RTW88IEEE80211.cpp:1269-1299 | a frame of a TID without a window goes straight on |
| ReorderExact.AgreementsFree | src/kext/RTW88IEEE80211.cpp:1415-1467 | starting and ending agreements hands nothing up, frees exactly what the window held, and leaves the other windows alone |
| Reorder.SlotsAtRest | src/kext/RTW88IEEE80211.hpp:245-257 | at every rest point an occupied slot i holds a frame with sequence number i modulo 64 inside the window, and `stored` is the number of occupied slots, at most 63 |
| Reorder.TakenMeansDuplicate | src/kext/RTW88IEEE80211.cpp:1506-1512 | a frame inside the window finds its slot taken only by a frame of its own sequence number |
| Reorder.Uncapped | src/kext/RTW88IEEE80211.cpp:1514-1522 | the 64-entry output list never ends the release of the in-order run |
| Reorder.RxReorder.Receive | src/kext/RTW88IEEE80211.cpp:1469-1531 | the 64-slot buffer on 12-bit numbers does what the window on absolute numbers does |
| Reorder.RxReorder.SkipHole | src/kext/RTW88IEEE80211.cpp:1552-1559 | the hole skip ends at the first frame held; its guard of 4096 is never what ends it |
| Reorder.RxReorder.FlushHole | src/kext/RTW88IEEE80211.cpp:1550-1568 | skips to the first held frame and releases the run behind it, as far as the shared list has room |
| RxPath.Receiver.ReorderInput | src/kext/RTW88IEEE80211.cpp:1469-1531 | a frame goes through the window of its TID, or straight on when there is none |
| RxPath.Receiver.BaSetup | src/kext/RTW88IEEE80211.cpp:1415-1436 | a new agreement starts from an emptied window; frames still held are freed |
| RxPath.Receiver.BaTeardown | src/kext/RTW88IEEE80211.cpp:1438-1458 | the end of an agreement frees what its window holds |
| RxPath.Receiver.BaTeardownAll | src/kext/RTW88IEEE80211.cpp:1460-1467 | the end of all agreements frees everything held |
| RxPath.Receiver.FlushStale | src/kext/RTW88IEEE80211.cpp:1541-1577 | one timer firing over all TIDs with one shared list, and the timer set again while anything is held |
| ReorderRuns.StepGood | src/kext/RTW88IEEE80211.cpp:1523-1537 | every event keeps every window sound and the timer set while any TID holds a frame |
| ReorderRuns.RunConserves | src/kext/RTW88IEEE80211.cpp:1415-1577 | over every run each frame handed in is delivered, freed or held, as often as it came in |
| ReorderRuns.DeliveredAtMostOnce | src/kext/RTW88IEEE80211.cpp:1415-1577 | from power-up a frame that came in once is in exactly one of delivered once, freed once, held |
| ReorderRuns.RunOrdered | src/kext/RTW88IEEE80211.cpp:1469-1577 | between resets of a TID, the numbers its window releases strictly increase over every mix of arrivals and timer firings |
| ReorderRuns.RunTrue | src/kext/RTW88IEEE80211.cpp:1469-1577 | while arrivals stay within reach of the window, every released frame carries its sender's own number |
| ReorderRuns.DeliveredInSenderOrder | src/kext/RTW88IEEE80211.cpp:1469-1577 | so frames leave the window in the order they were sent, none twice |
| ReorderRuns.TimerLowers | src/kext/RTW88IEEE80211.cpp:1541-1577 | each firing with something held strictly lowers the number of held frames, although eight TIDs share one list |
| ReorderRuns.TimerEmpties | src/kext/RTW88IEEE80211.cpp:1541-1577 | without new input as many firings as there are held frames empty every window |
| DataFrame.IncrementAddsOne | src/kext/RTW88IEEE80211.cpp:2957-2961 | the byte carry adds one modulo 256 to the length |
| DataFrame.IncrementPn | src/kext/RTW88IEEE80211.cpp:2957-2961 | the in-place loop performs that carry on the six bytes |
| DataFrame.FrameControlRead | src/compat/net/mac80211.h:121-164 | the predicates on the frame control read back QoS and protection, and the header length is 26 or 24 |
| DataFrame.SnapFound | src/kext/RTW88IEEE80211.cpp:1329-1350 | the search for the SNAP header ends behind the CCMP header for every packet number and key index |
| DataFrame.EncapsulationRoundTrip | src/kext/RTW88IEEE80211.cpp:1304-1362 | for QoS or not, protected or not, every packet number and payload: delivery recovers exactly the addresses, ethertype and payload written |
| DataFrame.BuildFrame | src/kext/RTW88IEEE80211.cpp:2926-2989 | builds that frame in a socket buffer that is always large enough, behind 128 bytes of headroom |
| AirFormat.CcmpRead | src/kext/RTW88IEEE80211.cpp:2963-2972 | for every content: packet number (PN0, PN1, PN2 to PN5), key ID and extended IV are read back from the CCMP header in the air bytes |
| AirFormat.HeaderRead | src/kext/RTW88IEEE80211.cpp:2929-2953 | frame control (ToDS, not FromDS), the three addresses, sequence control and QoS control are read back from the air bytes |
| OffAir.MsduDelivered | src/kext/RTW88IEEE80211.cpp:1304-1362 | a single MSDU behind any header, protected or not, is delivered with first address, third address, ethertype and payload |
| OffAir.AmsduDelivered | src/kext/RTW88IEEE80211.cpp:1304-1330 | an A-MSDU behind any QoS header, protected or not, is delivered frame by frame |
| OffAir.HeaderLengths | src/compat/net/mac80211.h:121-164 | the length of a data frame's header by its frame control, with a fourth address and QoS |
| DataFrame.DeliverDataFrame | src/kext/RTW88IEEE80211.cpp:1304-1362 | the delivery branches, in bounds, on all frames of at least a header |
| Skb.SkBuff.Put | src/compat/linux/skbuff.h:170-176 | appends at the tail and keeps what is there |
| Skb.SkBuff.Reserve | src/compat/linux/skbuff.h:205-209 | moves an empty buffer's data up |
| Amsdu.AmsduRoundTrip | src/kext/RTW88IEEE80211.cpp:1392-1409 | any list of SNAP frames, each subframe but the last padded to four bytes, is delivered exactly and in order |
| Amsdu.Disjoint | src/kext/RTW88IEEE80211.cpp:1392-1409 | on any bytes the subframes visited are in range and do not overlap |
| Amsdu.DeliveredPieces | src/kext/RTW88IEEE80211.cpp:1392-1409 | on any bytes what is delivered is what stands in these subframes, each once and in order |
| Amsdu.DeAmsdu | src/kext/RTW88IEEE80211.cpp:1392-1409 | the splitter's loop terminates and delivers exactly the subframes with SNAP headers, on any bytes |
| Beacon.RsnSelected | src/kext/RTW88IEEE80211.cpp:1099-1151 | an RSN element is selected exactly when CCMP and pre-shared key are in its lists, wherever they stand; a group cipher other than TKIP counts as CCMP |
| Beacon.RsnSelect | src/kext/RTW88IEEE80211.cpp:1099-1151 | the walk over the suites decides that in bounds on any bytes |
| Beacon.CipherMeans | src/kext/RTW88IEEE80211.cpp:1191-1229 | a network counts as CCMP exactly when some RSN element is selected, as TKIP exactly when none is and a WPA element is there, in any order; name and element copy stay in their buffers |
| Beacon.ChannelRecovered | src/kext/RTW88IEEE80211.cpp:1237-1245 | every channel is recovered from its centre frequency |
| Beacon.OneName | src/kext/RTW88IEEE80211.cpp:1197-1199 | a beacon with one name element: the name buffer holds that name as a C string |
| Beacon.LearnName | src/kext/RTW88IEEE80211.cpp:1197-1199 | with several, the buffer holds them written one over the other |
| Beacon.NameLearned | src/kext/RTW88IEEE80211.cpp:1197-1199 | length and that many bytes of the buffer are the last name element, or nothing |
| Beacon.ChannelLearned | src/kext/RTW88IEEE80211.cpp:1200-1203 | the channel is that of the last DS element, whatever HT elements there are, if that is not 0 |
| Beacon.GroupLearned | src/kext/RTW88IEEE80211.cpp:1204-1212 | the group cipher is that of the last RSN element selected |
| Beacon.IesLearned | src/kext/RTW88IEEE80211.cpp:1223-1229 | the copy kept of the elements is the elements, if they are fewer than 512 bytes |
| Beacon.ReadBeacon | src/kext/RTW88IEEE80211.cpp:1171-1245 | parses any frame in bounds to what the fold over its elements says; frames under 42 bytes are dropped |
| BssTable.EnteredSound | src/kext/RTW88IEEE80211.cpp:1247-1264 | entering a network keeps addresses unique, grows the table exactly when the address is new, and loses no other network |
| BssTable.EnteredPlace | src/kext/RTW88IEEE80211.cpp:1247-1264 | a new network comes first, a known one keeps its place |
| BssTable.ThinnedIs | src/kext/RTW88IEEE80211.cpp:1766-1791 | the end of a scan keeps exactly the target of the connection or handshake and the networks at most three scans old |
| BssTable.ThinnedInOrder | src/kext/RTW88IEEE80211.cpp:1766-1791 | in their order |
| BssTable.TargetKept | src/kext/RTW88IEEE80211.cpp:1766-1791 | the network of a connection or handshake is never forgotten, also in a scan that started from it; of the others exactly those not seen for more than three scans are |
| BssTable.RunConsistent | src/kext/RTW88IEEE80211.cpp:1804-1819 | over all runs, through wraps of the 32-bit scan counter: addresses unique, count equal to length, nothing seen after the current scan |
| BssTable.NotForgottenEarly | src/kext/RTW88IEEE80211.cpp:1766-1819 | a network stays for three scans after it was last seen, whatever else happens, wraps included |
| BssTable.ScanTable.ProcessScanResult | src/kext/RTW88IEEE80211.cpp:1171-1267 | updates in place or puts in front, and counts |
| BssTable.ScanTable.BeginScan | src/kext/RTW88IEEE80211.cpp:1811-1819 | the counter skips zero; at the wrap all ages start again |
| BssTable.ScanTable.ScanDone | src/kext/RTW88IEEE80211.cpp:1766-1791 | removes in place exactly the networks thinning removes, with the count |
| BssTable.ScanTable.FindBySsid | src/kext/RTW88IEEE80211.cpp:1995-2008 | the first network whose name, as a C string, is the one given |
| BssTable.FoundFirst | src/kext/RTW88IEEE80211.cpp:1995-2008 | what is found is the first network of the name, and nothing exactly if there is none |
| BssList.ListRoundTrip | ctl/main.c:166-201 | for every table with names of at most 32 bytes and every capacity, the program shows the longest prefix of the table that fits in the smaller of capacity and 4095, every field preserved |
| BssList.SignalRead | ctl/main.c:188 | negative signals survive the two bytes |
| BssList.Layout | src/kext/RTW88IEEE80211.cpp:3186-3196 | where length, name, address, signal, channel and cipher of a network stand, and in which byte order |
| BssList.CmdGetBssList | src/kext/RTW88IEEE80211.cpp:3167-3207 | the buffer ends up holding that reply, and no more is written than the capacity |
| BssList.CmdList | ctl/main.c:166-202 | the cursor stays in bounds and reads what the reply format says, on any bytes |
| Dma.NextTracks | src/kext/RTW88PCIDevice.cpp:763-906 | every operation keeps the account of descriptors and the distinctness of buffers in use |
| Dma.ExactlyOnePlace | src/kext/RTW88PCIDevice.cpp:763-875 | over every run of allocations, both frees with preemption on or off, and drains: an allocated descriptor is live, pending or released, exactly one of them and once |
| Dma.MappingSurvives | src/kext/RTW88PCIDevice.cpp:763-906 | a mapping stays until it is freed or mapped anew, whatever happens to others |
| Dma.SyncFindsMapping | src/kext/RTW88PCIDevice.cpp:889-906 | after any such run the address leads to the buffer of that mapping and the memory it was made for |
| Dma.MapUnmap | src/kext/RTW88PCIDevice.cpp:122-158 | mapping and unmapping leaves the buffers in use as they were and gives the descriptor back, now or by the next drain |
| Dma.DmaPool.AllocCoherent | src/kext/RTW88PCIDevice.cpp:763-807 | a zeroed buffer in front of the list, or none and no descriptor kept |
| Dma.DmaPool.FreeCoherent | src/kext/RTW88PCIDevice.cpp:809-833 | unlinks the first node with that memory and releases its descriptor, or puts that off without preemption |
| Dma.DmaPool.FreeCoherentByPhys | src/kext/RTW88PCIDevice.cpp:835-858 | the same by address |
| Dma.DmaPool.DrainPendingFree | src/kext/RTW88PCIDevice.cpp:860-875 | releases every put-off descriptor once, in list order |
| Dma.DmaPool.SetBounceOrigVa | src/kext/RTW88PCIDevice.cpp:877-887 | records the memory on the first node with that address |
| Dma.DmaPool.SyncBounceForCpu | src/kext/RTW88PCIDevice.cpp:889-906 | copies the bytes of the bounce buffer, no more than either size, to the memory it stands for, and leaves the rest of it |
| Dma.DmaPool.DmaMap | src/kext/RTW88PCIDevice.cpp:122-151 | a bounce buffer for the memory, holding its bytes when the device is to read them and zeros otherwise |

## Left out

- Thread interleavings inside one event, locks, sleeps and timer deadlines: each event is atomic, and the runs of the connect thread still to come are counted, each to happen in any later state.
- The IOKit life cycle, interrupts, register access, PCI configuration, the network stack and mbufs, the user client, the USB device and the Linux driver itself.
- `handleBackAction` and uplink aggregation: block-ack agreements start and end as events of the receive path; the A-MPDU flag of sent frames is not part of the model.
- Contents of management frames the station sends (authentication, association, deauthentication, probe), channel widths and HT or VHT capabilities.
- Lifetime of the received buffer in `processAssocResponse`: the body is taken as a value beforehand.
- Station.Station.RxFrame: takes frames of at least 24 bytes, because the driver reads the header before it looks at the length; with a block-ack agreement the data path is `RxPath.Receiver` instead.
- Station.Station.ReleaseSta: the class does not hold the reorder windows that go with the peer; `Driver` states that on values.
- Station.Station.ProcessDeauth: likewise.
- Station.Station.DoDisconnect: likewise, and the deauthentication frame it sends is not part of the model.
- Station.Station.CmdConnect: takes the network found as a parameter; `Networks.CmdConnect` looks it up.
- Networks.CmdConnect: reads the table once, first; aborting a scan does not itself change the table, and what the scanning thread enters while the command waits counts as before it.
- StationSpec.Counted: `_txSeq` is advanced by management frames too, which the model does not send; nothing proved depends on it.
- CcmpRuns.RepeatsExactlyIfPending: asks for a peer record and a number left, without which no first packet can go out; `CcmpNumbers.OneConnectionApart` does not.
- Station.Station.ManualScanEnds: the scanning thread reads once, at its start, whether it scans from a connection; the model reads it at each hop. In reachable states it never does.
- StationSafety.ReachableSafe: `attached` stands for the presence of the hardware, its operations and the interface together; the code looks at them one by one. It says nothing about a peer record in the connected state, since allocating one can fail.
- The text of the PRF label and the constants of RFC 3394 and 802.11 are written down once; no example in print covers them.
- Sha1Stream.Context.Update: requires the length plus 63 to stay below 2^32, where the 32-bit sums of the code would wrap; the longest input of the driver is a received frame.
- Eapol.EapolMicOk: under the same limit.
- KeyDerivation.HmacSha1: under the same limit.
- RxPath.Receiver.FlushStale: a locked section and the deliveries behind it are one step; the driver pins both to one work loop.
- BssTable.ScanTable.ProcessScanResult: the linked nodes are a sequence field, and the count is not cut to 32 bits.
- BssList.ListRoundTrip: names of at most 32 bytes, which is what beacons put into the table (`Beacon.CipherMeans`); the copy of a name into the 33-byte buffer of the program is not modelled as memory.
- BssList.CmdList: the copy of a name into the 33-byte buffer is not modelled as memory, so for bytes the kernel never writes it says what is read, not that the name fits.
- BssList.CmdGetBssList: writes each entry as one piece, the code field by field.
- Dma.ExactlyOnePlace: assumes what the kernel allocator promises, that a new descriptor is new and that buffers in use have different memory and bus addresses.
- Dma.DmaPool.SyncBounceForCpu: what the device writes into a buffer is whatever the buffer holds; the memory copied to must be as long as what is copied.
- `Aes`: the 256-entry tables are sixteen rows of sixteen bytes each.
- Smoothing of signal strength, driver statistics, status queries, printing, and the helpers under `src/compat/linux` other than the socket buffer.
