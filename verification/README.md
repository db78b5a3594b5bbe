# Verification of the Firebase client's core

This project models the parts of the Firebase client library for Arduino devices that hold real
state, and proves what they promise. It covers:

* **the response reader** (`Wrappers`, `Text`, `HttpReader`, `ChunkFraming`, `ChunkTiming`, `TokenResponse`,
  `TokenMessage`, `TokenHandler`, `TokenArrival`, `TokenTiming`): the line reader, the header parser, the decoder of chunked bodies
  (section 4.1 of RFC 7230), and the loop that puts a
  whole response together, however its bytes arrive;
* **base64** (`Base64Spec`, `Base64Alphabet`, `Base64Codec`, `Base64Decoder`, `Base64Entry`): sections 4 and 5 of
  RFC 4648, with the pluggable output that fills an array, a list, or a buffer flushed to a writer;
* **the socket client** (`RxBuffer`, `Upload`): the receive buffer as a queue, and the send path of an
  upload from the payload to a socket that takes what it likes, with its progress reports;
* **`parseWrites`** (`ParseWrites`): the reuse of one scratch document and one scratch array;
* **the deployment scheduler** (`Deploy`, `DeployProofs`, `DeployDrain`, `DeployClock`, `DeployRouting`, `DeployUrls`);
* **the token engine** (`Auth`, `AuthEngine`, `AuthProofs`, `AuthLaws`, `AuthReady`, `Expiry`): the steps that make a
  signed JWT, the flag that lets one request at a time use the network, and the expiry time that moves
  when the clock is set.

Code that updates things in place is a class or a method with loops and array updates, proved equal to
a function of the old state; the laws are lemmas about those functions. What the network, the file
system, the clock and the caller do is a parameter or an arbitrary choice.

## Findings

Some expected properties do not hold of the code. For each, a theorem says exactly when it holds, and a
lemma or method shows an input on which it does not.

* A chunk is decoded with an extra carriage return exactly when the number of bytes behind its last line
  feed is one less than a multiple of the buffer length (`ChunkFraming.DecodingUndoesFramingIff`,
  `TokenMessage.PayloadIsContentIff`; input: `ChunkFraming.ExtraCarriageReturn`).
* When bytes arrive late, completion can be reported early: by a chunk's size line cut before its
  extensions, or an empty read between its data and its closing CRLF (`ChunkTiming.SizeReadCompletesIff`,
  `ChunkTiming.DataReadCompletesIff`; over whole runs `ChunkTiming.RunIsExactIff`; inputs:
  `ChunkTiming.UntimelyReads`).
* A response of announced length that arrives bit by bit is read exactly if no read stops in its status
  code, in front of the CRLF of a line, or inside the blank line; its body may arrive in any pieces
  (`TokenTiming.LengthResponseIsReadIff`, `TokenTiming.TwoPartsAreReadIff`; inputs:
  `TokenTiming.PlainResponseInTwo`).
* `encode` reports every refused flush; `decode` only that of the last buffer, unless that one is full. Its
  true answer can be trusted exactly when the decoded text does not fill the buffer
  (`Base64Entry.AnswerIsTrueIff`; inputs: `Base64Entry.LossGoesUnreported`,
  `Base64Entry.LossOfRestIsReported`).
* `encodeUrl` reads behind its input exactly for fewer than two bytes (`Base64Entry.EncodeUrl`; input:
  `Base64Entry.OneByteIsOverread`).
* The receive buffer's positions survive `tcpClose`; the client is sound afterwards exactly if it was
  drained (`RxBuffer.Client.TcpClose`; input: `RxBuffer.StrandedByte`).
* A read returns less than there is exactly if it asks for more than is buffered and the refill that fits
  behind that brings less than is missing (`RxBuffer.Client.TcpRead`, `RxBuffer.Client.ReadsAllIff`; input:
  `RxBuffer.ShortRead`).
* A write that says nothing disappears from the array of writes (`ParseWrites.OneElementPerWriteIff`,
  `ParseWrites.BlankIff`; input: `ParseWrites.BlankWriteIsDropped`).
* The upload URL goes to the task behind the visited one, which is the appended task only when the
  visited task is the last (`DeployRouting.UrlGoesToAppendedIff`). Every URL is used for one upload of its
  own object throughout a run exactly if every visit that gets one is to the last task
  (`DeployUrls.EveryUrlIsUsedOnceIff`; input: `DeployRouting.TwoPipelinesMisroute`).
* The request flag stays set after three events only (`AuthProofs.FlagIsSetIff`). A sign-in task that finds
  it set does nothing in exactly the turns that neither the clock nor a look at a dead network ends
  (`AuthLaws.SignInNeverEndsIff`; input: `AuthLaws.SignInGetsStuck`). Every request
  holds the flag while it talks exactly if it is no sign-up (`AuthProofs.RunIsSound`; input:
  `AuthLaws.SignUpGoesUnflagged`).
* A request for tokens that carries the JWT, be it an exchange or the renewal of a custom token, carries a
  complete one exactly if it was signed after it was encoded last and no server has answered since
  (`AuthLaws.CarriedJwtIsCompleteIff`). So an exchange repeated after a refusal carries an empty string
  (`AuthLaws.ExchangedTextIsCustomTokenIff`; input: `AuthLaws.EmptyJwtIsExchanged`), and so does the renewal
  of a caller's refresh token, for which no JWT was ever encoded (input: `AuthLaws.EmptyJwtIsRenewed`).
* Every attempt to sign uses the digest up, so a JWT is signed over its digest exactly if no attempt has
  failed before (`AuthLaws.SignedOverDigestIff`; input: `AuthLaws.RetrySignsWithoutDigest`).
* An expiry is moved once and for all exactly when it and the clock that was set add up to a minute and a
  counter period more than the threshold (`Expiry.ClockMovesOnceIff`, and for one reading of the counter
  `Expiry.MovedOnceIff`; inputs: `Expiry.MovedTwice`). Whether it is due is told rightly at every clock
  exactly if the expiry less the margin fits 32 signed bits (`Expiry.DueIff`).

## Model

| member | source | states |
|---|---|---|
| `Text.StrPos` | src/FB_Utils.h:69-98 | the search that drops a partial match without stepping back, as the function `Find` |
| `Text.MatchIsSound` | src/FB_Utils.h:69-98 | a reported position is a real occurrence |
| `Text.FindsFirst` | src/FB_Utils.h:69-98 | the search stops exactly behind text that does not contain the token, even though it can miss occurrences elsewhere |
| `Text.FindsNothing` | src/FB_Utils.h:69-98 | -1 for text without the token |
| `Text.Hex2Int` | src/FB_Utils.h:1086-1104 | the 32-bit accumulator, up to the first NUL |
| `Text.Hex2IntIsValue` | src/FB_Utils.h:1086-1104 | it is the numeral's value modulo 2^32 |
| `Text.ValueOfHex` | src/FB_Utils.h:1086-1104 | a number written in hexadecimal reads back as itself |
| `HttpReader.TcpClient.Read` | src/FB_Utils.h:1027-1053 | the client hands out the next arrived byte |
| `HttpReader.ReadLine` | src/FB_Utils.h:1027-1053 | takes up to and including the first line feed, at most the buffer length and what has arrived |
| `HttpReader.ReadLineString` | src/FB_Utils.h:1056-1080 | the same into a growing string, which keeps no NUL |
| `HttpReader.ReadChunkedData` | src/FB_Utils.h:1107-1220 | one call: new state, bytes taken, length returned and text put out, for both output forms |
| `HttpReader.ChunkStep` | src/FB_Utils.h:1107-1220 | what a call takes is nothing or one line; nothing is put out unless a length is returned |
| `ChunkFraming.PlainChunkIsValid` | src/FB_Utils.h:1107-1220 | any text a sender frames in the usual way is covered by the theorems |
| `ChunkFraming.SizeInSizeLine` | src/FB_Utils.h:1136-1163 | a size line, with or without extensions, announces the value of its digits |
| `ChunkFraming.DataStep` | src/FB_Utils.h:1165-1217 | one call inside a chunk, whose data may hold line feeds: within the data, between the closing CR and LF, or behind both |
| `ChunkFraming.LineFeedStep` | src/FB_Utils.h:1165-1217 | the line feed left by a split CRLF is swallowed |
| `ChunkFraming.DataLineLen` | src/FB_Utils.h:1027-1053 | a read stops between the closing CR and LF exactly when the rest of the line is one byte too long for the buffer |
| `ChunkFraming.DecodesData` | src/FB_Utils.h:1165-1217 | all calls of one chunk, into a buffer |
| `ChunkFraming.DecodesDataToString` | src/FB_Utils.h:1165-1217 | the string form keeps the closing CRLF of data that does not end in a line feed |
| `ChunkFraming.DecodesFraming` | src/FB_Utils.h:1107-1220 | for every list of chunks, repeated calls put out the chunks in order and report completion at the zero chunk, for both output forms |
| `ChunkFraming.DecodingUndoesFramingIff` | src/FB_Utils.h:1107-1220 | the output is the framed data if and only if no chunk's last line fills the buffer up to its CR |
| `ChunkFraming.ExtraCarriageReturn` | src/FB_Utils.h:1165-1217 | a chunk of 2047 letters comes out with a carriage return behind them |
| `ChunkFraming.OutputLength` | src/FB_Utils.h:1107-1220 | nothing is ever lost, and a split adds bytes |
| `ChunkTiming.SizeReadCompletesIff` | src/FB_Utils.h:1121-1163 | a read of a chunk's size line counts as the end of the body exactly when it is cut before its extensions begin |
| `ChunkTiming.DataReadCompletesIff` | src/FB_Utils.h:1165-1217 | inside a chunk completion is reported exactly by an empty read in front of the closing CRLF |
| `ChunkTiming.RunTakesCourse` | src/FB_Utils.h:1107-1220 | for every schedule of arrivals that cuts no extension, the decoder hands out what the framing and the arrivals alone tell: one byte too many for each split CRLF, less than the body if it ends early |
| `ChunkTiming.RunIsExactIff` | src/FB_Utils.h:1107-1220 | over those schedules, but for a split and an early end in one run, a complete run has handed out the whole body exactly when the arrivals were timely |
| `ChunkTiming.PlainNeverStrays` | src/FB_Utils.h:1107-1220 | without extensions that is every schedule |
| `ChunkTiming.TimelyRunIsExact` | src/FB_Utils.h:1107-1220 | under timely arrivals the output is always a beginning of the body and, once complete, the whole body |
| `ChunkTiming.FaultsCanCancel` | src/FB_Utils.h:1107-1220 | why a split and an early end are left out there: together they can put out the body by chance |
| `ChunkTiming.UntimelyReads` | src/FB_Utils.h:1107-1220 | a whole run for each way in which other schedules go wrong |
| `TokenResponse.ReadLineBuffered` | src/FB_Utils.h:1222-1262 | one line read through a zeroed buffer |
| `TokenResponse.Network.IsResponseTimeout` | src/FB_Utils.h:1877-1886 | the clock runs out after a fixed number of polls |
| `TokenResponse.Exchange.ReadStatusLine` | src/FB_Utils.h:1222-1250 | the first call reads the status line, later ones only count |
| `TokenResponse.Exchange.ReadHeader` | src/FB_Utils.h:1252-1276 | one header line, or the blank line and with it the parsing of the header |
| `TokenResponse.Exchange.ParseRespHeader` | src/FB_Utils.h:733-774 | content length, chunked encoding and the absence of content |
| `TokenResponse.Exchange.ReadPayload` | src/core/FirebaseCore.cpp:1093-1111 | one piece of payload in either encoding, appended as a C string |
| `TokenResponse.ReadPiece` | src/core/FirebaseCore.cpp:1093-1106 | the piece read into the cleared buffer |
| `TokenMessage.FieldFound` | src/FB_Utils.h:162-197 | a header field is found and read to its line end |
| `TokenMessage.FramingIsFound` | src/FB_Utils.h:733-774 | the parser finds the framing the header announces |
| `TokenMessage.StatusIsFound` | src/FB_Utils.h:776-790 | the status code is read |
| `TokenMessage.StatusTurn` | src/FB_Utils.h:1222-1250 | the status line leaves the reader at the first header line |
| `TokenMessage.HeaderTurn` | src/FB_Utils.h:1252-1276 | each header line moves the reader to the next |
| `TokenMessage.BlankLineTurn` | src/FB_Utils.h:1252-1276 | the blank line leaves it at the body with the right framing |
| `TokenMessage.LengthTurn` | src/FB_Utils.h:1888-1897 | a piece of a body of known length either ends it, with the whole body collected, or leaves less |
| `TokenMessage.ChunkTurn` | src/FB_Utils.h:1899-1909 | the same for a chunked body |
| `TokenMessage.PayloadIsContentIff` | src/core/FirebaseCore.cpp:1093-1111 | the payload is the content unless a chunk is split by the buffer |
| `TokenMessage.PlainMessageIsValid` | src/core/FirebaseCore.cpp:1049-1144 | a plain response meets the conditions of the theorem |
| `TokenHandler.TurnKeepsTrack` | src/core/FirebaseCore.cpp:1074-1124 | every round of the loop makes progress, and the loop stops exactly when the payload is complete |
| `TokenHandler.Turn` | src/core/FirebaseCore.cpp:1074-1124 | the round as the code performs it |
| `TokenHandler.AwaitFirstByte` | src/core/FirebaseCore.cpp:1061-1066 | the wait for the first byte, as the function `Waits` |
| `TokenHandler.ReadRounds` | src/core/FirebaseCore.cpp:1074-1130 | the loop, for any arrivals of bytes from round to round, as the function `Rounds` |
| `TokenHandler.HandleTokenResponse` | src/core/FirebaseCore.cpp:1049-1144 | the call as the function `Handled`; for every valid response that has arrived and that the response time outlasts, it succeeds with its status code and exactly its payload |
| `TokenHandler.NoBodyIsNoAnswer` | src/core/FirebaseCore.cpp:1084-1089 | a header without length and chunks ends the call at its blank line, without an answer |
| `TokenHandler.TimeIsUp` | src/FB_Utils.h:1877-1886 | when the response time is up, the round at hand is the last and its payload is the answer |
| `TokenHandler.ChunkedIsDrained` | src/core/FirebaseCore.cpp:1127-1130 | nothing that has arrived behind a chunked body is left on the client |
| `TokenArrival.StatusOfCutIff` | src/FB_Utils.h:1222-1250 | the status code is read rightly exactly if the first read reaches behind it |
| `TokenArrival.PieceEndsIff` | src/FB_Utils.h:1252-1262 | a piece of a line passes for the end of the header exactly if it begins with the line's CR |
| `TokenArrival.HeadRound` | src/core/FirebaseCore.cpp:1074-1124 | a harmless piece of a line leaves the reader in the header, with nothing lost |
| `TokenArrival.LengthRound` | src/FB_Utils.h:1888-1897 | any piece of a body of known length is fine, and the loop stops when it is whole |
| `TokenArrival.WholeHeadIsRead` | src/core/FirebaseCore.cpp:1061-1124 | for either framing, a head told to be read, from the lengths of its lines and the arrivals alone, leaves the reader at the body with the framing known and the supply that was told |
| `TokenTiming.LengthResponseIsReadIff` | src/core/FirebaseCore.cpp:1049-1144 | for every schedule of arrivals that brings all of it in time, the call returns the code and body of a response of announced length exactly if its head is told to be read |
| `TokenTiming.TwoPartsAreReadIff` | src/core/FirebaseCore.cpp:1049-1144 | for a response in two parts, told from the one byte behind the first: exactly which cuts make the call fail |
| `TokenTiming.PlainResponseInTwo` | src/core/FirebaseCore.cpp:1049-1144 | a response of 40 bytes, cut anywhere |
| `TokenTiming.ChunkRounds` | src/core/FirebaseCore.cpp:1090-1116 | in a chunked body the loop hands out what the decoder does, fed as it arrives |
| `TokenTiming.ChunkedResponseIsReadIff` | src/core/FirebaseCore.cpp:1049-1144 | a chunked response whose head is read and whose body is complete in time is returned rightly exactly if the arrivals of its body are timely |
| `Base64Codec.CreateDecTable` | src/FB_Utils.h:1333-1342 | the table answers for every byte |
| `Base64Codec.Output.WriteOutput` | src/FB_Utils.h:1344-1363 | one flush of the buffer, and what is lost when a writer refuses |
| `Base64Codec.Output.SetOutput` | src/FB_Utils.h:1365-1383 | one byte into the chosen output; the buffer is never full between calls; only the writers' answers can fail it |
| `Base64Codec.SentAllIff` | src/FB_Utils.h:1344-1363 | everything offered reached the writer exactly when every flush was taken |
| `Base64Codec.EncodeBlocks` | src/FB_Utils.h:1497-1517 | the whole blocks, in any output |
| `Base64Codec.EncodeRest` | src/FB_Utils.h:1465-1494 | the last one or two bytes, in any output |
| `Base64Codec.EncodeInto` | src/FB_Utils.h:1496-1526 | whatever the output, what it received is the encoding, and true is returned exactly when every flush was taken |
| `Base64Decoder.CountSignificant` | src/FB_Utils.h:1399-1412 | the number of bytes that are not foreign |
| `Base64Decoder.DecodeLoop` | src/FB_Utils.h:1413-1446 | the loop puts out the decoding in any output and stops at a bad block |
| `Base64Decoder.DecodeInto` | src/FB_Utils.h:1385-1452 | whatever the output, it received the decoding; the result is true exactly for valid text whose last buffer is full or taken, and so many flushes are made |
| `Base64Entry.EncodeToString` | src/FB_Utils.h:1582-1594 | the encoding as a C string |
| `Base64Entry.EncodeToClient` | src/FB_Utils.h:1596-1606 | the client has the whole encoding if and only if true is returned |
| `Base64Entry.DecodeToArray` | src/FB_Utils.h:1527-1536 | the list holds the decoding |
| `Base64Entry.DecodeToFile` | src/FB_Utils.h:1538-1549 | what was offered to the file is the decoding; the exact answer for every file; and it is all there exactly when the file took every buffer |
| `Base64Entry.AnswerIsTrueIff` | src/FB_Utils.h:1365-1452 | a true answer means that everything arrived, whatever the file does, exactly when the decoded text is shorter than the buffer |
| `Base64Entry.AnswerSpeaksOfLast` | src/FB_Utils.h:1365-1452 | everything arrived exactly if the answer is true and the file took every full buffer |
| `Base64Entry.LossGoesUnreported` | src/FB_Utils.h:1365-1452 | a run in which the file takes nothing and true is returned |
| `Base64Entry.LossOfRestIsReported` | src/FB_Utils.h:1365-1452 | a run in which the file takes nothing and false is returned |
| `Base64Entry.PredictDecodedLen` | src/FB_Utils.h:1300-1310 | the walk over the padding computes `DecodedLen` |
| `Base64Entry.EncodeUrl` | src/FB_Utils.h:1551-1580 | the base64url text and its NUL; in bounds exactly for two bytes or more |
| `Base64Entry.OneByteIsOverread` | src/FB_Utils.h:1551-1580 | one byte is read out of bounds |
| `Base64Alphabet.CharIsInTable` | src/FB_Const.h:2663 | the alphabets are those of tables 1 and 2 of RFC 4648 |
| `Base64Alphabet.EncodedCharIs` | src/FB_Utils.h:1496-1526 | every character is the table's for its six bits of the input read as one number; what is left is padding |
| `Base64Alphabet.UrlCharIs` | src/FB_Utils.h:1551-1580 | the same for base64url, which ends there |
| `Base64Alphabet.TableHoldsPlaces` | src/FB_Utils.h:1333-1342 | the decoding table holds each character's place in the alphabet |
| `Base64Alphabet.DecodedNumberIs` | src/FB_Utils.h:1413-1446 | text of the alphabet decodes to the bytes of its number in base 64, less the bits that fill no byte |
| `Base64Spec.EncodeLength` | src/FB_Utils.h:1295-1298 | the length is the announced one less the NUL |
| `Base64Spec.EncodeConcat` | src/FB_Utils.h:1496-1526 | encoding splits behind a multiple of three bytes |
| `Base64Spec.RoundTripIff` | src/FB_Utils.h:1385-1526 | decoding undoes encoding exactly for the non-empty inputs |
| `Base64Spec.EncodeIsInjective` | src/FB_Utils.h:1496-1526 | different inputs have different encodings |
| `Base64Spec.DecodeIgnoresForeignBytes` | src/FB_Utils.h:1399-1426 | texts that differ in foreign bytes only decode alike (section 3.3 of RFC 4648) |
| `Base64Spec.PaddingIsOptional` | src/FB_Utils.h:1407-1417 | any text decodes like the text with its missing padding added |
| `Base64Spec.UnpaddedDecodes` | src/FB_Utils.h:1407-1417 | so encoded text without its padding decodes alike |
| `Base64Spec.DecodeUnpaddedIff` | src/FB_Utils.h:1399-1452 | text without padding is accepted exactly when its significant length is not 0 and not 1 modulo 4, and then gives three quarters of it |
| `Base64Spec.DecodedLenOfEncoded` | src/FB_Utils.h:1300-1310 | the predicted length of encoded text is the length of the input |
| `Base64Spec.UrlEncodeIsUnpadded` | src/FB_Utils.h:1551-1580 | base64url is base64 with two characters respelled and no padding (section 5 of RFC 4648) |
| `Base64Spec.UrlEncodeFits` | src/core/FirebaseCore.cpp:1181-1184 | it fits the buffer allocated for it, with its NUL |
| `Base64Spec.UrlEncodeIsClean` | src/FB_Utils.h:1551-1580 | it holds URL-safe characters only, so no dot |
| `RxBuffer.Client.FillRxBuffer` | src/client/WiFiClientImpl.h:280-306 | a refill brings exactly what `recv` returns, if there is room and FIONREAD has reported anything, and puts it behind what is buffered; the queue is unchanged |
| `RxBuffer.Client.TcpRead` | src/client/WiFiClientImpl.h:489-533 | what is returned is the front of the queue and what remains is the rest, although the refill in the test makes `remain` stale; something is returned exactly if something is buffered or the refill brings something; and when everything has arrived, exactly how much |
| `RxBuffer.Client.ReadsAllIff` | src/client/WiFiClientImpl.h:489-533 | when a read returns less than there is |
| `RxBuffer.Client.TransferRest` | src/client/WiFiClientImpl.h:513-531 | the refill loop keeps the order, and goes on as long as something is brought |
| `RxBuffer.Client.TcpPeek` | src/client/WiFiClientImpl.h:412-419 | the front of the queue, which stays; -1 exactly before the first fill, or with nothing buffered and nothing brought |
| `RxBuffer.Client.TcpAvailable` | src/client/WiFiClientImpl.h:407-410 | what is buffered and what FIONREAD reports |
| `RxBuffer.Client.Flush` | src/client/WiFiClientImpl.h:98-103 | drops what is buffered and what one more refill brings |
| `RxBuffer.Client.TcpClose` | src/client/WiFiClientImpl.h:399-405 | sound afterwards exactly if nothing was buffered |
| `RxBuffer.CloseStrandsBytes` | src/client/WiFiClientImpl.h:399-410 | with bytes buffered, a closed client still counts them without having a buffer |
| `RxBuffer.StrandedByte` | src/client/WiFiClientImpl.h:399-405 | a client that holds one byte |
| `RxBuffer.FirstFillIsStranded` | src/client/WiFiClientImpl.h:280-410 | it takes no more than one refill that brings something |
| `RxBuffer.ShortRead` | src/client/WiFiClientImpl.h:489-533 | a read that leaves a byte in the buffer |
| `RxBuffer.Run` | src/client/WiFiClientImpl.h:98-533 | over every run, what was given out and dropped, in order, followed by what is still to come, is what the peer sent |
| `Upload.TcpWrite` | src/client/WiFiClientImpl.h:421-483 | the loop ends after the first round in which everything is taken, `select` or `send` fails, or the tenth round in a row has taken nothing; by then a prefix of the input has been accepted, which is what is reported |
| `Upload.WillingIsNotGivenUp` | src/client/WiFiClientImpl.h:421-483 | a socket on which nothing fails, and which takes something in any ten rounds, is never given up |
| `Upload.Write` | src/client/FB_TCP_Client.h:660-696 | the answer in every case: data that reaches a socket is sent in full exactly unless the socket is given up; otherwise a prefix of it |
| `Upload.Request.ReportUploadProgress` | src/firestore/FB_Firestore.cpp:835-853 | reports rise by at least two, except into 100, tell the truth, and are never two behind it |
| `Upload.TcpSend` | src/firestore/FB_Firestore.cpp:865-896 | succeeds exactly if the data is empty, or reaches a socket that is not given up; then the payload has been accepted, and the reports start at 0, follow every chunk, end at 100 and are at most 51 |
| `Upload.PercentMonotone` | src/firestore/FB_Firestore.cpp:835-853 | percentages do not fall |
| `Upload.FewReports` | src/firestore/FB_Firestore.cpp:835-853 | rising reports number at most 51 |
| `ParseWrites.SplitTokens` | src/FB_Utils.h:113-124 | the list of mask paths as the function `Tokens` |
| `ParseWrites.TokensAreTrimmed` | src/FB_Utils.h:105-124 | a path is not empty, holds no comma and neither begins nor ends with a blank |
| `ParseWrites.NoTokensIff` | src/FB_Utils.h:105-124 | exactly a list of commas and blanks has no paths |
| `ParseWrites.SplittingUndoesJoining` | src/FB_Utils.h:105-124 | paths joined by commas, with any blanks around them, are split into exactly these paths in order |
| `ParseWrites.SetFieldTransform` | src/firestore/FB_Firestore.cpp:137-172 | fills the cleared scratch, and returns false exactly when it leaves it empty |
| `ParseWrites.AddTransforms` | src/firestore/FB_Firestore.cpp:269-285 | the reused array holds the transforms of this write only |
| `ParseWrites.BuildWrite` | src/firestore/FB_Firestore.cpp:228-289 | the document of a write depends on that write alone, and the scratch is empty again |
| `ParseWrites.BuildWrites` | src/firestore/FB_Firestore.cpp:219-306 | the request's array is the list of the writes' documents, without the blank ones |
| `ParseWrites.BlankIff` | src/firestore/FB_Firestore.cpp:219-306 | which writes have no document |
| `ParseWrites.BlankWriteIsDropped` | src/firestore/FB_Firestore.cpp:219-306 | a write that is possible and has no element |
| `ParseWrites.OneElementPerWriteIff` | src/firestore/FB_Firestore.cpp:219-306 | one element per write, in order, exactly when no write is blank |
| `ParseWrites.ElementSays` | src/firestore/FB_Firestore.cpp:219-306 | each part of a write is found in its element under its own name |
| `ParseWrites.UpdateSays` | src/firestore/FB_Firestore.cpp:219-306 | an update holds the caller's fields and names the document |
| `ParseWrites.TransformSays` | src/firestore/FB_Firestore.cpp:137-172 | a transform holds its path, and its operation under its own name |
| `ParseWrites.DocPathIs` | src/firestore/FB_Firestore.cpp:219-306 | one slash joins base and path, whether the caller wrote it or not |
| `Deploy.Scheduler.AddCreationTask` | src/functions/FB_Functions.cpp:72-111 | appends the task, counts it and makes the first visit |
| `Deploy.Scheduler.AddSuccessor` | src/functions/FB_Functions.cpp:72-111 | while a visit is under way, it only appends |
| `Deploy.Scheduler.MDeployTasks` | src/functions/FB_Functions.cpp:879-1195 | one visit, as the function `Visit` |
| `Deploy.Scheduler.WorkOn` | src/functions/FB_Functions.cpp:894-1144 | the step of the visited task, as the function `AfterTask` |
| `Deploy.Scheduler.Poll` | src/functions/FB_Functions.cpp:1085-1144 | one poll of the deployment's state |
| `Deploy.Scheduler.ClearWhenDone` | src/functions/FB_Functions.cpp:1146-1195 | everything goes when everything is done, and the counts with it |
| `Deploy.Scheduler.CreateFunction` | src/functions/FB_Functions.cpp:128-215 | which pipeline a creation starts |
| `DeployProofs.WorkShape` | src/functions/FB_Functions.cpp:894-1144 | a visit touches the visited task and appends at most one task of the same object |
| `DeployProofs.NextKeepsInv` | src/functions/FB_Functions.cpp:72-1195 | every event keeps the invariant |
| `DeployProofs.RunKeepsInv` | src/functions/FB_Functions.cpp:879-1195 | in every reachable state no task is idle, an undone poll is still polling, and each object's count of long-running work is the number of its listed tasks plus what others contribute |
| `DeployProofs.RefusedIff` | src/firestore/FB_Firestore.cpp:497-501 | whatever else counts as long-running, an object's Firestore requests are refused exactly while there is such work or a task of that object is listed |
| `DeployProofs.RefusedIffListed` | src/firestore/FB_Firestore.cpp:497-501 | from the start, exactly while a task of that object is listed |
| `DeployDrain.SuccessorIsLower` | src/functions/FB_Functions.cpp:894-1144 | a finished step hands over to one of strictly lower rank |
| `DeployDrain.WorkFallsIff` | src/functions/FB_Functions.cpp:879-1195 | a visit lowers the remaining work exactly unless the task is done or the poll is not due or not terminal |
| `DeployDrain.BudgetFalls` | src/functions/FB_Functions.cpp:879-1195 | every answered visit brings the end nearer |
| `DeployDrain.Drains` | src/functions/FB_Functions.cpp:1146-1195 | when polls are answered, the list is empty after at most the budgeted number of visits |
| `DeployDrain.NestedVisitIsNothing` | src/functions/FB_Functions.cpp:879-892 | a visit inside a visit changes nothing |
| `DeployClock.PollIsDueIff` | src/functions/FB_Functions.cpp:1085-1089 | a poll is due exactly if more than five seconds have passed since the recorded one, for any two times less than a counter period apart |
| `DeployClock.VisitPollsIff` | src/functions/FB_Functions.cpp:1085-1144 | a visit to an unfinished poll asks, records its own time, and ends it on a final status or a failed request, exactly when the poll is due; otherwise it changes nothing |
| `DeployClock.StatusDecides` | src/functions/FB_Functions.cpp:1097-1144 | which step follows a poll that ends |
| `DeployClock.StepHandsOver` | src/functions/FB_Functions.cpp:903-1083 | any other step is finished by its visit, and which step follows it, exactly if its request succeeded |
| `DeployClock.PollsAreSpaced` | src/functions/FB_Functions.cpp:879-1195 | every event of every run keeps the reading of the last poll, and two successive polls more than five seconds apart |
| `DeployClock.PollsAreSpacedFromStart` | src/functions/FB_Functions.cpp:879-1195 | so they are in every run from power-up |
| `DeployClock.DrainsInTime` | src/functions/FB_Functions.cpp:879-1195 | visits more than five seconds apart that find final statuses empty the list within the budgeted number |
| `DeployClock.CreationLists` | src/functions/FB_Functions.cpp:128-215 | an accepted creation lists one task with the first step for its source, and counts it |
| `DeployClock.FirstCreationVisits` | src/functions/FB_Functions.cpp:72-111 | off the ESP32 the first creation also makes the first visit |
| `DeployClock.PipelineCompletes` | src/functions/FB_Functions.cpp:894-1195 | a deployment that goes well: one visit a step, the archive uploaded to the generated URL, then nothing is listed |
| `DeployRouting.UploadsAreRouted` | src/functions/FB_Functions.cpp:986-1011 | with one pipeline at a time every upload goes to the URL generated just before for the same object, wherever an earlier pipeline left the index |
| `DeployRouting.UrlGoesToAppendedIff` | src/functions/FB_Functions.cpp:926-929 | the appended task gets the URL exactly when the visited task is the last |
| `DeployRouting.TwoPipelinesMisroute` | src/functions/FB_Functions.cpp:926-1011 | a run of two pipelines in which the first archive is sent to no URL |
| `DeployUrls.GenBalancedIff` | src/functions/FB_Functions.cpp:903-936 | with any number of pipelines, a generated URL joins those that wait for one upload each exactly if the visited task is the last |
| `DeployUrls.VisitBalancedIff` | src/functions/FB_Functions.cpp:879-1195 | a visit keeps every generated URL used for, or held by, exactly one upload of its object, unless it gets a URL for a task that is not the last |
| `DeployUrls.EveryUrlIsUsedOnceIff` | src/functions/FB_Functions.cpp:72-1195 | over every run with any number of pipelines, that holds at every moment exactly if no visit gets a URL for such a task |
| `DeployUrls.UploadsAreGenerated` | src/functions/FB_Functions.cpp:986-1195 | when such a run has cleared its list, each URL was uploaded to as often as it was generated, for the same object |
| `Auth.SetTokenError` | src/core/FirebaseCore.cpp:954-971 | the flag stays set only if an error text was held and an error is set |
| `Auth.HandleTaskError` | src/core/FirebaseCore.cpp:973-1036 | the flag is clear, and only completion succeeds |
| `Auth.InitClient` | src/core/FirebaseCore.cpp:1742-1784 | when it connects, and when it leaves the flag set |
| `Auth.RequestTokens` | src/core/FirebaseCore.cpp:1786-1949 | nothing happens while the flag is set; otherwise the flag is set afterwards exactly if the request was not blocked and the network was gone; when it succeeds; and the status, step and JWT it leaves in each case |
| `Auth.RefreshToken` | src/core/FirebaseCore.cpp:790-885 | the same for the refresh |
| `Auth.GetIdToken` | src/core/FirebaseCore.cpp:1361-1502 | the same for signing in; a sign-up never leaves the flag set |
| `Auth.DeleteIdToken` | src/core/FirebaseCore.cpp:1504-1583 | the flag is set afterwards exactly when the deletion succeeded |
| `Auth.SendEmail` | src/core/FirebaseCore.cpp:1959-2048 | the flag is always clear afterwards |
| `Auth.TokenReady` | src/core/FirebaseCore.cpp:2050-2074 | the answer is whether the network is up, the token ready and no task running |
| `Auth.FirestoreRequest` | src/firestore/FB_Firestore.cpp:479-524 | the request starts, and brings back what the service answers, exactly if there is a connection, a ready token, no task, a clear flag and no long-running work; otherwise it leaves what the readiness test left |
| `Auth.FunctionsRequest` | src/functions/FB_Functions.cpp:444-475 | the same, and the flag is set afterwards exactly if the request lost its header |
| `AuthEngine.Engine.SetError` | src/core/FirebaseCore.cpp:954-971 | in place, the new state is that of `SetTokenError` |
| `AuthEngine.Engine.HandleError` | src/core/FirebaseCore.cpp:973-1036 | the same for the end of a request |
| `AuthEngine.Engine.Init` | src/core/FirebaseCore.cpp:1742-1784 | the same for the connection |
| `AuthEngine.Engine.RequestTokens` | src/core/FirebaseCore.cpp:1786-1949 | the same for the token request |
| `AuthEngine.Engine.RefreshToken` | src/core/FirebaseCore.cpp:790-885 | the same for the refresh |
| `AuthEngine.Engine.GetIdToken` | src/core/FirebaseCore.cpp:1361-1502 | the same for signing in and up |
| `AuthEngine.Engine.DeleteIdToken` | src/core/FirebaseCore.cpp:1504-1583 | the same for the deletion |
| `AuthEngine.Engine.HandleEmailSending` | src/core/FirebaseCore.cpp:1959-2048 | the same for the emails |
| `AuthEngine.Engine.CreateJwt` | src/core/FirebaseCore.cpp:1157-1359 | the two steps of making the JWT text, and the digest that the one makes and the other uses up |
| `AuthEngine.Engine.DoRound` | src/core/FirebaseCore.cpp:678-782 | one turn of the task |
| `AuthEngine.Engine.TokenProcessingTask` | src/core/FirebaseCore.cpp:654-785 | the loop of the task, for every script of turns |
| `AuthEngine.Engine.HandleToken` | src/core/FirebaseCore.cpp:369-525 | the handler with the task and the requests it makes |
| `AuthEngine.Engine.SendFirestore` | src/firestore/FB_Firestore.cpp:479-524 | a Firestore request takes and returns the flag |
| `AuthEngine.Engine.SendFunctions` | src/functions/FB_Functions.cpp:444-475 | a Functions request, with the path that keeps the flag |
| `AuthEngine.Engine.SetToken` | src/Firebase.cpp:169-242 | taking over a caller's token |
| `AuthEngine.FindTwoDots` | src/Firebase.cpp:188-199 | the test for a custom token |
| `AuthProofs.RequestTokensIsSound` | src/core/FirebaseCore.cpp:1786-1949 | a token request keeps the invariant |
| `AuthProofs.ExchangeIsSound` | src/core/FirebaseCore.cpp:771-776 | so does an exchange, after which the task's step overwrites the one the answer set |
| `AuthProofs.TaskRunIsSound` | src/core/FirebaseCore.cpp:654-785 | so does the task, for every script of turns |
| `AuthProofs.HandleTokenIsSound` | src/core/FirebaseCore.cpp:369-525 | so does the handler |
| `AuthProofs.ServicesAreSound` | src/firestore/FB_Firestore.cpp:479-524 | so do the requests of Firestore and Functions |
| `AuthProofs.RunIsSound` | src/core/FirebaseCore.cpp:369-2048 | in every run, requests start only when no request holds the flag, and hold it while they talk exactly if they are no sign-ups; the services' requests start only with a ready token, no task running and the network up; a signature is only ever made for the header and payload encoded last, and over their digest unless an attempt to sign them has failed; a request that carries the JWT carries what the history tells: an exchange that signed text or, once a server has answered, nothing, and a renewal whatever was last encoded or signed |
| `AuthProofs.FlagIsSetIff` | src/core/FirebaseCore.cpp:369-2048 | from power-up on, the flag is set after a call exactly when the last event that concerned it was a lost network, a deleted user or a lost header |
| `AuthLaws.SignedTextHasTwoDots` | src/core/FirebaseCore.cpp:1157-1359 | a signed JWT is three non-empty URL-safe segments and exactly two dots (section 7.1 of RFC 7515) |
| `AuthLaws.HasTwoDotsIff` | src/Firebase.cpp:188-199 | the caller-side test accepts exactly the texts with at least two dots |
| `AuthLaws.ExchangedTextIsCustomTokenIff` | src/core/FirebaseCore.cpp:768-782 | in every run, what waits to be exchanged passes that test exactly until the first answer |
| `AuthLaws.JwtIsCompleteIff` | src/core/FirebaseCore.cpp:1157-1359 | of what the JWT can be, exactly what was encoded, signed and not yet answered is a header, a payload and a signature |
| `AuthLaws.BodyIsJwtIff` | src/core/FirebaseCore.cpp:1805-1845 | a request for tokens carries the JWT exactly unless it carries the caller's custom token or renews an OAuth 2.0 token |
| `AuthLaws.RequestIsRecorded` | src/core/FirebaseCore.cpp:1786-1949 | a request that connects goes out, with that body |
| `AuthLaws.CarriedJwtIsCompleteIff` | src/core/FirebaseCore.cpp:1786-1949 | after every run, the next request that carries the JWT, exchange or renewal, carries a complete one exactly if it was signed since it was encoded and not answered since |
| `AuthLaws.EmptyJwtIsRenewed` | src/core/FirebaseCore.cpp:466-471 | a run in which a renewal carries an empty JWT, none having been encoded |
| `AuthLaws.LostRequestHealsIff` | src/core/FirebaseCore.cpp:1713-1740 | a flag left set by a lost network is cleared by the next look at the dead network exactly if the request was a refresh |
| `AuthLaws.TurnIsIdleIff` | src/core/FirebaseCore.cpp:678-742 | with the flag left set, which turns of a sign-in task do nothing |
| `AuthLaws.SignInNeverEndsIff` | src/core/FirebaseCore.cpp:678-742 | any number of turns leaves such a task where it was exactly if all of them are idle |
| `AuthLaws.SignInGetsStuck` | src/core/FirebaseCore.cpp:678-742 | a run that gets there |
| `AuthLaws.SignUpGoesUnflagged` | src/core/FirebaseCore.cpp:1361-1502 | a run in which a sign-up talks without the flag |
| `AuthLaws.EmptyJwtIsExchanged` | src/core/FirebaseCore.cpp:768-776 | a run that sends an empty JWT after a refused exchange |
| `AuthLaws.SignedOverDigestIff` | src/core/FirebaseCore.cpp:1299-1351 | in every run, a JWT to be exchanged was signed over its digest exactly if no attempt to sign it had failed before |
| `AuthLaws.RetrySignsWithoutDigest` | src/core/FirebaseCore.cpp:1320-1351 | a run that signs without a digest |
| `AuthReady.YesMeansReady` | src/core/FirebaseCore.cpp:369-525 | the handler's yes means a ready token, but for a caller's ID token that cannot be renewed |
| `AuthReady.UnexpiredIsGoodIff` | src/core/FirebaseCore.cpp:369-525 | which tokens are good before they expire |
| `AuthReady.ExpiredTokenIsRefreshedIff` | src/core/FirebaseCore.cpp:418-448 | an expired token of a user is refreshed exactly when both timers allow it and no request is under way, and yes means success |
| `AuthReady.CustomTokenIsTradedIff` | src/core/FirebaseCore.cpp:385-413 | a caller's custom token is good until it expires, and then traded exactly if the timer allows it and the server accepts |
| `AuthReady.GrantIsRenewedIff` | src/core/FirebaseCore.cpp:466-471 | a token with a refresh token is renewed exactly if the server accepts |
| `AuthReady.TokenIsTakenOverIff` | src/Firebase.cpp:169-242 | what a caller's token does: ready at once, or used to renew, or a reset |
| `AuthReady.ReadyEngineServes` | src/firestore/FB_Firestore.cpp:479-524 | a ready engine with a clear flag and a connection lets the services' requests start and brings back their answer |
| `AuthReady.ServiceRenewsIff` | src/firestore/FB_Firestore.cpp:479-524 | with an expired token, the request starts exactly if the renewal on the way succeeds |
| `AuthReady.TaskGetsToken` | src/core/FirebaseCore.cpp:654-785 | for every header, payload and signature, four turns of the task sign and exchange the JWT and leave the engine ready |
| `AuthReady.EngineServesFromPowerUp` | src/core/FirebaseCore.cpp:369-785 | from power-up to a service's answer |
| `AuthReady.SignInGetsToken` | src/core/FirebaseCore.cpp:654-785 | a sign-in needs one turn |
| `Expiry.Tokens.GetExpiration` | src/core/FirebaseCore.cpp:1951-1957 | the expiry of a new token, on the clock of the moment |
| `Expiry.Tokens.AdjustTime` | src/core/FirebaseCore.cpp:293-305 | the move of the expiry and the margin |
| `Expiry.Tokens.IsExpired` | src/core/FirebaseCore.cpp:277-291 | the test, after the move |
| `Expiry.Tokens.TestAll` | src/core/FirebaseCore.cpp:277-305 | every test of a run |
| `Expiry.CounterDifference` | src/core/FirebaseCore.cpp:300 | the difference of two counter readings is the time between them modulo the period |
| `Expiry.RebasedIsExactIff` | src/core/FirebaseCore.cpp:293-305 | the moved expiry is the issue instant on the set clock plus the life plus the old base less a minute, exactly when the counter has not gone all the way round |
| `Expiry.SettledStays` | src/core/FirebaseCore.cpp:293-305 | an expiry on the right clock is never moved again |
| `Expiry.MovedOnceIff` | src/core/FirebaseCore.cpp:293-305 | no later test moves the expiry again exactly when it and the clock add up to a minute more than the threshold and the seconds the counter shows |
| `Expiry.ClockMovesOnceIff` | src/core/FirebaseCore.cpp:293-305 | whatever the counter shows, the expiry is moved once and for all exactly when it and the clock add up to a minute and a counter period more than the threshold |
| `Expiry.LateClockMovesOnce` | src/core/FirebaseCore.cpp:293-305 | the value it then keeps is on the right clock |
| `Expiry.WholeRunIsExactIff` | src/core/FirebaseCore.cpp:277-305 | over a whole run of tests before and after the clock is set, the expiry ends at that value exactly when the first test on the set clock comes within one counter period |
| `Expiry.MovedTwice` | src/core/FirebaseCore.cpp:293-305 | inputs on which it is moved twice |
| `Expiry.DueIff` | src/core/FirebaseCore.cpp:277-291 | for every expiry and margin: the test compares the clock with the expiry less the margin, at every clock, exactly if that difference fits the signed type, and what it does otherwise |
| `Expiry.MarginIsResetIff` | src/core/FirebaseCore.cpp:302-304 | the margin is reset to a minute exactly if it is longer than the expiry, moved or not |
| `Expiry.TestIsDueIff` | src/core/FirebaseCore.cpp:277-305 | a test says due exactly when the clock is within the margin of the expiry, or within a minute if the margin is longer |

## Left out

- TokenTiming.LengthResponseIsReadIff: for responses no header line of which begins like the body, since otherwise the rest of a header can pass for the body by chance.
- TokenTiming.ChunkedResponseIsReadIff: for a head that is read; the rest of one that is not is taken for size lines, and what comes of it depends on its text. Within a body, the exclusions of `ChunkTiming.RunIsExactIff`.
- DeployUrls.EveryUrlIsUsedOnceIff: for servers that never answer with an empty upload URL.
- AuthEngine.Engine.TokenProcessingTask: the loop runs for as many turns as its script describes, because it need not end; nothing else happens while it is still running.
- Expiry.RebasedIsExactIff: for clocks and expiries that fit 32 bits, that is before 2106; so are `Expiry.MovedOnceIff` and `Expiry.ClockMovesOnceIff`.
- ChunkTiming.RunIsExactIff: for the form that decodes into a buffer, which the token response uses; the string form has `ChunkFraming.DecodesFraming` only.
- Upload.Request.ReportUploadProgress: percentages are exact quotients; the rounding of floating point is not modelled.
- Upload.PercentMonotone: so is the division here.
- AuthEngine.Engine.CreateJwt: what a signing attempt without a digest computes is any 256 bytes.
- ParseWrites.BuildWrites: JSON documents are trees; printing and parsing them again is taken to give the tree back, and the empty document to print as the empty text.
- Characters of responses are `char`, bytes of base64 text and of sockets are `bv8`; sizes are unbounded except where the code wraps around.
- The response fields that nothing here depends on (connection, content type, ETag, location).
- TLS, the modem and network drivers, file systems, the over-the-air updater: arbitrary outcomes.
- RSA, SHA-256 and CRC: a signature is any 256 bytes; a signing failure is an outcome.
- The age of a token, the timers and the credentials met by the token engine are arbitrary in each call, so its theorems hold for more runs than there are.
- The user's callbacks, and calls of the engine from inside them; the second task of an ESP32.
- The Realtime Database, Storage, Cloud Storage and Messaging requests, which use the same flag.
- Clearing an object leaves its count of long-running work alone; the code that clears it is not part of this model.
- Deployment tasks are named by index; the pointer that `push_back` may invalidate is not modelled.
- That a real network ever answers; `AuthReady` says what follows if it does.
- Request URLs, error texts, header tables: one branch settles each.
