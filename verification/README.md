# Onion messages and offers, verified

A Dafny model of boltnd: onion messages routed over blinded hops, the subscriptions that
receive them, and the bolt 12 messages (offers, invoice requests, invoices) they are for.
`dafny verify dfyconfig.toml` checks all of it.

The code that changes state is written as methods and classes with loops, as in the
repository; each is proved equal to a function of its inputs or old state, and the properties
are lemmas about those functions. The parts, from the bottom up:

- `Bytes`, `BigSize`, `TU64`, `Keys`, `Tlv`, `ReplyPath`: byte codecs and record streams. A stream
  is read with a schema that gives each known type its decoder; unknown types are read raw.
- `OnionPayload`, `RouteData`: what a hop unwraps, and what a blinded route hides for it.
- `MerkleTree`, `Merkle`: the root that messages are signed by. The tagged hash is a parameter.
  Nothing assumes that it does not collide: binding is stated as "the same records, or a collision
  among the queries made to compute these two roots".
- `Fields`, `Values`, `Signatures`, `Offer`, `InvoiceRequest`, `Invoice`: the three messages, their
  records in a fixed order, their decoders and the root that decoding recomputes. The order in which
  the map of parsed types is visited is a parameter of decoding.
- `Base32`, `OfferString`, `OfferEncoding`: offers as strings.
- `Layouts`, `MessageLayouts`, `MessageReads`, `RootByHand`, `RouteByHand`: the same formats, roots and
  onions once more, by hand, with every type, size and tag as a literal: what the functions elsewhere
  compute, and not just that they agree with each other.
- `Routes`, `Messenger`, `Delivery`, `Receiving`, `RelayPeers`: the sender builds a route, every node handles what
  it gets, and the walk from node to node is proved to deliver. Cryptography is symbolic: a
  `Crypto` value holds the operations and `Sound` the laws that sender and receiver rely on.
- `RouteCreation`, `Laws`, `Counterexamples`: exactly when a route can be created, that the assumed laws
  can be met together, and concrete inputs on which a promise fails.
- `Registry`, `Registration`, `Subscription`, `Dispatching`, `Waiting`, `Shutdown`: the event loop and
  its callers as interleaved steps, for any number of callers and any order of steps.

Some results say where the code does less than its comments hope:

- rpcserver/impl_subscribe_onion_payload.go:29-31 expects a one-slot buffer to keep the caller from
  blocking. The loop does block in a handler whose slot is full (`Subscription.HeldUpExactly`), and a
  subscription whose send failed can wait for the loop while the loop waits for it, until its client
  cancels or the server quits (`EmbraceReachable`, `EmbraceLasts`). Everyone who offers the loop a
  request then waits as well (`Waiting.BystanderWaits`, and exactly when: `Waiting.OfferStuckExactly`).
- lnwire/bolt12_merkle.go:291-314 makes encoders that share the loop's variable: go.mod:3 asks for Go
  1.17, where a loop has one. Each unknown record keeps its type and size but writes the bytes of
  whichever entry the map yields last, so the root that decoding recomputes can depend on the map's
  order (`Offer.OrderMatters`). `Offer.OfferRootInEveryOrder` and its like for requests and invoices
  say exactly when it is the wire's root in every order.
- onionmsg/messenger.go:620-674 lets the loop end when its message stream fails, before anyone closes
  the quit channel. Whoever is then offering a request waits until Stop (`Registration.HangsExactly`,
  `Registration.HangReachable`, `Subscription.OfferHangsExactly`).
- A route of more than 27 layers is not refused: filling the packet's array panics
  (`RouteCreation.CreatedExactly`, `Counterexamples.LongRouteOverflows`). A decoded reply path can
  have 255 hops.
- lnwire/onion_msg_payload.go:234-237 allows final payloads without a body. Decoding drops them
  unless their type is 64 or 66 (`OnionPayload.PayloadRoundTrip`), and likewise leaves empty unknown
  records out of a recomputed root (`Fields.RootAgreement`).
- A one-hop route straight to a blinded destination carries neither the request's reply path nor its
  final payloads (`Delivery.RequestArrives`, `Counterexamples.PayloadIsDropped`).
- Creating a route to a blinded destination trims the request, so the same request is refused a second
  time (`RouteCreation.RetryIsRefused`).
- An offer whose expiry is the Unix epoch encodes and then does not decode (`Offer.OfferRoundTrip`,
  `Counterexamples.EpochOfferIsRefused`).
- An offer that sets a minimum quantity and no maximum refuses every request
  (`InvoiceRequest.AllowedExactly`).
- offers/bech32.go:125-129 refuses an empty piece but not one of white space alone
  (`OfferString.CutFormReads`).
- onionmsg/messenger.go:885-886 says that forwarding is not supported; the code below it forwards,
  and the model follows the code.

## Model
| member | source | states |
|---|---|---|
| ReplyPath.Size | lnwire/onion_msg_payload.go:266-277 | the size announced for a reply path, summed over its hops |
| ReplyPath.EncodeReplyPath | lnwire/onion_msg_payload.go:280-309 | writes exactly the specified bytes; fails only where the one-byte hop count wraps to zero |
| ReplyPath.DecodeReplyPath | lnwire/onion_msg_payload.go:312-348 | the hop-by-hop loop reads exactly what the recursive reader does, with the same errors |
| ReplyPath.SizeIsBytesWritten | lnwire/onion_msg_payload.go:266-309 | whenever encoding succeeds, the announced size is the number of bytes written, also when a count or length wraps |
| ReplyPath.ReplyPathRoundTrip | lnwire/onion_msg_payload.go:280-411 | an encoded path followed by anything reads back as itself, consuming only its own bytes, if and only if it has 1 to 255 hops with at most 65535 bytes of data each |
| ReplyPath.ReadPathFits | lnwire/onion_msg_payload.go:312-348 | every path that reads has counts and lengths that fit their fields |
| ReplyPath.BytesOfReadPath | lnwire/onion_msg_payload.go:312-411 | what reads as a path is the one encoding of that path followed by the rest |
| Layouts.PathIsSpelled | lnwire/onion_msg_payload.go:280-386 | the bytes of a path: two keys, a byte that counts the hops, and for each hop its key, two bytes that count its data, and the data; no hops modulo 256 is an error |
| Layouts.PathIsRead | lnwire/onion_msg_payload.go:312-411 | those bytes are read as the path exactly when more than 35 bytes are announced |
| Layouts.ReadPathIsSpelled | lnwire/onion_msg_payload.go:312-411 | and nothing else is read as a path |
| BigSize.VarIntRoundTrip | lnwire/bolt12_merkle.go:264-274 | every type and length written as a varint reads back, consuming nothing else |
| BigSize.VarIntUnique | lnwire/onion_msg_payload.go:150-154 | whatever reads as a varint is the only encoding of its value |
| Layouts.VarIntSpelled | lnwire/bolt12_merkle.go:264-274 | one byte below 253, else a marker 253 to 255 and two, four or eight bytes of the number |
| TU64.TU64RoundTrip | lnwire/tu64.go:13-41 | every integer from 1 to 2^64-1 comes back; zero is written with no bytes and refused |
| TU64.TU64Unique | lnwire/tu64.go:25-35 | whatever is read as a truncated integer is the encoding of the non-zero integer read |
| TU64.StreamDecoderAgrees | lnwire/tu64.go:37-41 | the decoder used inside streams accepts exactly these encodings |
| Tlv.StreamRoundTrip | lnwire/onion_msg_payload.go:106-154 | strictly ascending records with values their types can have read back from their stream |
| Tlv.StreamUnique | lnwire/bolt12_offer.go:286-295 | a stream that reads is the only encoding of the records read, which strictly ascend and have values their types can have |
| Tlv.StreamInjective | lnwire/bolt12_merkle.go:261-282 | record encodings delimit themselves: equal concatenations come from equal lists |
| OnionPayload.EncodeOnionMessagePayload | lnwire/onion_msg_payload.go:60-103 | the code that grows and sorts the records writes the specified stream, with the same errors |
| OnionPayload.GatherUnknown | lnwire/onion_msg_payload.go:163-182 | in whatever order the map yields entries, exactly the non-empty unknown records from type 64 on are picked |
| OnionPayload.DecodeOnionMessagePayload | lnwire/onion_msg_payload.go:106-210 | decoding gives one result, with final payloads in order of type, for every iteration order of the map |
| OnionPayload.EncodeFails | lnwire/onion_msg_payload.go:60-103 | encoding succeeds exactly for types from 64 on that do not repeat, and a reply path whose hop count does not wrap to zero |
| OnionPayload.DecodedSurvives | lnwire/onion_msg_payload.go:106-210 | whatever decodes has a reply path that fits and no empty final payload of an unknown type |
| OnionPayload.PayloadRoundTrip | lnwire/onion_msg_payload.go:60-210 | an encodable payload comes back with its final payloads in order of type if and only if none of unknown type is empty and its reply path fits |
| Layouts.PayloadIsSpelled | lnwire/onion_msg_payload.go:60-103 | the bytes of a payload: the reply path under type 2, the hidden data under type 4 unless empty, then the final payloads in order of type |
| Layouts.PayloadIsRead | lnwire/onion_msg_payload.go:106-210 | whatever records stand beside them, the path is read from type 2, the hidden data from type 4, and every record from type 64 on is a final payload if its type is 64 or 66 or it is not empty; the length that the path's record announces only has to exceed 35 |
| Layouts.DecodedIsReadable | lnwire/onion_msg_payload.go:106-210 | and nothing else decodes |
| RouteData.EncodeBlindedRouteData | lnwire/route_blinding.go:29-58 | the code writes the specified stream and never fails |
| RouteData.RouteDataRoundTrip | lnwire/route_blinding.go:29-83 | hidden data comes back, for every combination of set fields |
| Layouts.RouteDataIsSpelled | lnwire/route_blinding.go:29-58 | the bytes of hidden data: the next node under type 4 and the override under type 8 |
| Layouts.RouteDataIsRead | lnwire/route_blinding.go:61-83 | whatever records stand beside them, hidden data reads exactly when what is under types 4 and 8 are points, and gives just those |
| MerkleTree.OrderIsSymmetric | lnwire/bolt12_merkle.go:56-66 | ordering two hashes does not depend on which came first |
| RootByHand.LesserIsFirst | lnwire/bolt12_merkle.go:56-66 | of two hashes the one that is less as a number comes first, and neither is lost |
| MerkleTree.QueueHolds | lnwire/bolt12_merkle.go:129-146 | the queue ends after one merge fewer than its inputs, with each input under the root exactly once |
| MerkleTree.QueueOfEven | lnwire/bolt12_merkle.go:129-146 | for an even count, queueing equals queueing the in-order pairs |
| MerkleTree.QueueIsLevel | lnwire/bolt12_merkle.go:129-146 | for 2^k or 3*2^k inputs the queue's tree is the level-by-level tree, up to the order of children |
| MerkleTree.QueueIsLevelExactly | lnwire/bolt12_merkle.go:129-146 | and for no other count |
| MerkleTree.TreeBinding | lnwire/bolt12_merkle.go:56-104 | trees with one root hash are mirror images, or two of the hash queries made for them collide |
| Merkle.CalculateRoot | lnwire/bolt12_merkle.go:129-146 | the queue loop computes the hash of the tree that queueing builds |
| Merkle.CreateTLVBranches | lnwire/bolt12_merkle.go:149-174 | an odd number of leaves is an error; otherwise branch k joins leaves 2k and 2k+1 |
| Merkle.CreateTLVLeaves | lnwire/bolt12_merkle.go:179-249 | a leaf and a nonce leaf for each record outside 240 to 1000, in order of type, the nonce tag carrying all of them |
| Merkle.MerkleRoot | lnwire/bolt12_merkle.go:107-126 | sorting, leaves, branches and queue together compute the specified root |
| RootByHand.RootIsQueue | lnwire/bolt12_merkle.go:107-249 | the root of any list without repeated types, by hand: those records typed outside 240 to 1000, in order of type, give each a pair of hashes under the tags LnLeaf and LnAll with all encodings, joined under LnBranch with the lesser first; two leave the front of the queue and their pairing goes to the back, until one is left |
| RootByHand.RootOfOne | lnwire/bolt12_merkle.go:107-249 | the root of one record as nested hashes |
| RootByHand.RootOfTwo | lnwire/bolt12_merkle.go:107-249 | and of two, whichever is listed first |
| Merkle.RootIndependence | lnwire/bolt12_merkle.go:107-126 | the root depends only on which records lie outside 240 to 1000, not on their order |
| Merkle.RootFails | lnwire/bolt12_merkle.go:107-126 | there is no root exactly when nothing lies outside 240 to 1000 |
| Merkle.WrittenBinding | lnwire/bolt12_merkle.go:107-282 | the same binding for records that write other bytes than they announce, and for lists without a root |
| Merkle.EncodingInjective | lnwire/bolt12_merkle.go:261-282 | an encoding tells the type, the announced size and the bytes, whether or not they agree |
| Merkle.RootBinding | lnwire/bolt12_merkle.go:107-282 | lists with one root hold the same records outside 240 to 1000, or two of the hash queries made for them collide |
| Merkle.RootAgainstLevels | lnwire/bolt12_merkle.go:129-146 | the root is the level-by-level one for 2^k or 3*2^k records, and for no other number unless two queries collide |
| Fields.FieldsRoundTrip | lnwire/bolt12_invoice.go:291-350 | set fields always ascend strictly, and their stream reads back exactly when each value is one its type can have |
| Fields.UnknownRecordsFromParsed | lnwire/bolt12_merkle.go:288-318 | each non-empty entry becomes a record, once, with its own type and size but the bytes of the entry visited last, since the encoders share the loop variable |
| Fields.DecodeMerkleRoot | lnwire/bolt12_shared.go:68-89 | the root over the populated fields and those records; of the order of visiting only the last entry counts |
| Fields.RootAgreement | lnwire/bolt12_shared.go:68-89 | for a given order, that root is the wire's own if every field is written as it was read and every unknown record holds the bytes visited last; and only if, unless two queries collide |
| Fields.WrittenInEveryOrder | lnwire/bolt12_merkle.go:291-314 | unknown records are written with their own bytes in every order exactly when none counts or all parsed entries, known ones as empty, hold the same bytes |
| Fields.EveryOrderAgreement | lnwire/bolt12_shared.go:68-89 | the root is the wire's own in every order if and only if every field is written as it was read and that holds, unless two queries collide |
| Fields.SignatureFieldsDoNotCount | lnwire/bolt12_merkle.go:253-258 | fields typed 240 to 1000 do not move the root of a message |
| Values.TimeComesBack | lnwire/bolt12_offer.go:146-152 | times survive the conversion to unsigned seconds, negative ones too; at the epoch no bytes are written |
| Values.TimeKept | lnwire/bolt12_offer.go:309-311 | a time read is written with the same bytes unless its bits are those of the first instant of year one |
| Values.DurationComesBack | lnwire/bolt12_invoice.go:262-267 | a duration that is not negative survives seconds and the wrapping multiplication back exactly when it is in whole seconds |
| Offer.Records | lnwire/bolt12_offer.go:114-195 | one record for each set field, in order of type |
| Offer.EncodeOffer | lnwire/bolt12_offer.go:242-259 | encoding never fails and writes the stream of those records |
| Offer.FillFields | lnwire/bolt12_offer.go:299-343 | each field comes from its own type, with the default where the type is missing, and the same first error |
| Offer.DecodeOffer | lnwire/bolt12_offer.go:262-351 | stream, fields and recomputed root as specified, with the same errors |
| Offer.OfferRoundTrip | lnwire/bolt12_offer.go:114-351 | an offer comes back, with its root, if and only if its expiry is in whole seconds and not at the epoch and a field beside the signature is set |
| Offer.OfferRootAgreement | lnwire/bolt12_offer.go:262-351 | for a given order, the recomputed root is the wire's when no known record is a default or oddly encoded features and every unknown record holds the bytes visited last; and only then, unless two queries collide |
| Offer.OfferRootInEveryOrder | lnwire/bolt12_offer.go:262-351 | in every order, when no known record is such and no unknown record counts or all parsed entries hold the same bytes; and only then, unless two queries collide |
| Offer.OrderMatters | lnwire/bolt12_merkle.go:291-314 | an offer with a description and one unknown record has the wire's root in one order and not in the other, unless two queries collide |
| MessageLayouts.OfferIsSpelled | lnwire/bolt12_offer.go:114-195 | the bytes of an offer, field by field, with the type of each and the value for which it is left out |
| MessageReads.OfferIsRead | lnwire/bolt12_offer.go:262-351 | which lists of records read as an offer, and the offer they read as: each field from its own type, whatever stands beside them; sizes, features, key and the missing root are the only reasons to fail |
| MessageReads.OfferRootIsCounted | lnwire/bolt12_shared.go:68-89 | the root of an offer that is read, by hand: over the records it is written with and one for every other record that is not empty, of its size, with the bytes visited last |
| Offer.ValidateExactly | lnwire/bolt12_offer.go:198-240 | a node key, a description, bounds in order, and a signature, if any, that verifies over the root under the spelled tag; checked in this order |
| InvoiceRequest.Records | lnwire/bolt12_invoice_request.go:228-308 | one record for each set field, in order of type |
| InvoiceRequest.EncodeInvoiceRequest | lnwire/bolt12_invoice_request.go:311-328 | encoding never fails and writes the stream of those records |
| InvoiceRequest.DecodeInvoiceRequest | lnwire/bolt12_invoice_request.go:331-413 | stream, fields and recomputed root as specified, with the same errors |
| InvoiceRequest.RequestRoundTrip | lnwire/bolt12_invoice_request.go:228-413 | a request comes back, with its root, if and only if a field beside the signature is set |
| InvoiceRequest.RequestRootAgreement | lnwire/bolt12_invoice_request.go:331-413 | the same for requests, for a given order |
| InvoiceRequest.RequestRootInEveryOrder | lnwire/bolt12_invoice_request.go:331-413 | the same for requests, in every order |
| MessageLayouts.RequestIsSpelled | lnwire/bolt12_invoice_request.go:228-308 | the bytes of a request, field by field |
| MessageReads.RequestIsRead | lnwire/bolt12_invoice_request.go:331-413 | which lists of records read as a request, and as which |
| MessageReads.RequestRootIsCounted | lnwire/bolt12_shared.go:68-89 | the root of a request that is read, by hand |
| InvoiceRequest.NewInvoiceRequest | lnwire/bolt12_invoice_request.go:128-188 | the checks in their order, then the request with the root of its own records |
| InvoiceRequest.AllowedExactly | lnwire/bolt12_invoice_request.go:132-163 | which amounts and quantities an offer allows: a range needs both bounds, and a minimum alone allows nothing |
| InvoiceRequest.RefusalsInOrder | lnwire/bolt12_invoice_request.go:132-163 | which error comes first |
| InvoiceRequest.NewRequestExactly | lnwire/bolt12_invoice_request.go:128-188 | a request is made exactly when it is allowed and something in it is set; it has the offer's chain, the offer's root as its offer, the offer's features and what was asked for, no payer info and no signature |
| InvoiceRequest.ValidateExactly | lnwire/bolt12_invoice_request.go:192-225 | the digest that is signed, and the checks of a request in their order, under the spelled tag |
| InvoiceRequest.SignedRoot | lnwire/bolt12_invoice_request.go:298-305 | a signature does not move the root of a request |
| InvoiceRequest.SigningKeepsRoot | lnwire/bolt12_invoice_request.go:128-224 | a new request, signed, encoded and decoded keeps its root and the digest that was signed, and validates as it did at the sender, whatever the parity of the payer key |
| MessageReads.RequestOnTheWire | lnwire/bolt12_invoice_request.go:165-308 | the bytes of a signed request in terms of the offer: its chain under type 3 and its root under type 4 |
| MessageReads.RequestNamesOffer | lnwire/bolt12_invoice_request.go:165-413 | whoever reads it gets the offer's chain, the offer's root and what was asked for |
| Invoice.Records | lnwire/bolt12_invoice.go:182-288 | one record for each set field, in order of type |
| Invoice.EncodeInvoice | lnwire/bolt12_invoice.go:291-308 | encoding never fails and writes the stream of those records |
| Invoice.DecodeInvoice | lnwire/bolt12_invoice.go:311-407 | stream, fields and recomputed root as specified, with the same errors |
| Invoice.InvoiceRoundTrip | lnwire/bolt12_invoice.go:182-407 | an invoice with a relative expiry from zero on comes back, with its root, if and only if its times are in whole seconds and a field beside the signature is set |
| Invoice.InvoiceRootAgreement | lnwire/bolt12_invoice.go:311-407 | the same for invoices, where zero cltv, the first instant of year one and expiries whose seconds do not survive are not kept either, for a given order |
| Invoice.InvoiceRootInEveryOrder | lnwire/bolt12_invoice.go:311-407 | the same for invoices, in every order |
| MessageLayouts.InvoiceIsSpelled | lnwire/bolt12_invoice.go:182-288 | the bytes of an invoice, field by field |
| MessageReads.InvoiceIsRead | lnwire/bolt12_invoice.go:311-407 | which lists of records read as an invoice, and as which |
| MessageReads.InvoiceRootIsCounted | lnwire/bolt12_shared.go:68-89 | the root of an invoice that is read, by hand |
| Values.DurationKept | lnwire/bolt12_invoice.go:393-395 | an expiry read is written with the same bytes exactly from 1 to 9223372036 seconds, or where a wrapped negative one happens to convert back |
| Base32.ConvertBitsOfDigits | offers/encoding.go:39-42 | the five-bit digits of any byte string regroup into it |
| Base32.DigitsUnique | offers/encoding.go:39-42 | digits that regroup are the digits of the bytes they yield |
| OfferString.StripOffer | offers/bech32.go:119-142 | the loop over the parts returns the first error or the trimmed parts joined |
| OfferString.CheckASCII | offers/bech32.go:90-99 | true exactly when every character is visible ASCII |
| OfferString.ToBytes | offers/bech32.go:103-114 | each character becomes its index in the character set, or the first unknown one is an error |
| OfferString.DecodeBech32 | offers/bech32.go:35-86 | prefix and digits as specified, with the same errors in the same order |
| OfferString.CutFormReads | offers/bech32.go:35-142 | the form of a byte string in either case, cut anywhere with white space around the pieces, reads back if and only if there are four bytes or more and no piece is wholly empty |
| OfferString.AcceptedIsForm | offers/encoding.go:23-42 | whatever is accepted is, once stripped, the form of the bytes it yields, in one case |
| OfferString.AcceptedIsCutForm | offers/bech32.go:119-142 | and it was that form cut into pieces, none of them empty, with white space around them |
| OfferString.FormSpelled | offers/bech32.go:10-13 | the form: the prefix, a 1, and the characters of the set for five bits each, zeros filling up the last; in capitals or not |
| OfferString.RefusedExactly | offers/bech32.go:35-86 | why a string without joins is refused, in the order of the checks |
| OfferEncoding.OfferStringRoundTrip | offers/encoding.go:23-55 | the string of an offer, in either case and cut anywhere with white space around the pieces, reads back as that offer if and only if no piece is wholly empty, its expiry is in whole seconds and not at the epoch, and it has a node key, a description, bounds in order and no signature but one that verifies over its root |
| OfferEncoding.AcceptedExactly | offers/encoding.go:23-55 | any string is accepted exactly when its bytes read as an offer with a node key, a description, bounds in order and no signature but one over the recomputed root |
| Routes.CreatePathToBlind | routes/blinded.go:495-549 | each hop is told the next, and the last is sent across to the blinded destination under its blinding point |
| Routes.CreateSphinxHop | routes/blinded.go:632-647 | one encoded layer is written into its slot of the fixed array and no other slot changes |
| Routes.BlindedToSphinx | routes/blinded.go:554-628 | the slots hold our blinded hops and then the destination's, and only the last carries the reply path and final payloads |
| Routes.UsedOfFilled | routes/blinded.go:665-686 | the slots in use, up to the first empty one, are exactly the layers that were written, so these are what the onion wraps |
| Routes.BlindedRouteRequest.SendDirect | routes/blinded.go:693-726 | the destination's own layers under its own blinding point, without the request's payloads |
| Routes.BlindedRouteRequest.CreateBlindedRoute | routes/blinded.go:386-459 | the route as specified, and the introduction node trimmed off the request's hops, which are left alone if the request is invalid |
| RouteByHand.RouteIsLaid | routes/blinded.go:386-647 | the onion of every route that can be made, by hand: our nodes' blinded ids under a chain of ephemerals, each with what it is told sealed to it, then the destination's own; bare payloads but for the last one of a route with a hop to blind; the first node and the ephemeral it is sent under |
| Messenger.HandleExactly | onionmsg/messenger.go:743-921 | a node takes a message for itself exactly when its layer peels and is the last; it forwards exactly when the layer peels, is not the last, carries no final payload and names a peer: to that peer, with the override or else the next ephemeral, one layer less |
| Messenger.HandleSpelled | onionmsg/messenger.go:743-921 | what a node does with any onion, with the reasons for failing in the order of the checks |
| Messenger.Messenger.RegisterHandler | onionmsg/messenger.go:686-712 | the map of handlers and the answer after a request, as the sequential meaning has them |
| Registry.ApplyExactly | onionmsg/messenger.go:686-712 | a type is registered once and deregistered only while it is; a refused request changes nothing, the others change their own type and no other |
| Registry.ApplyUndone | onionmsg/messenger.go:686-712 | deregistering what was registered leaves the handlers as they were |
| Messenger.Messenger.HandleOnionMessage | onionmsg/messenger.go:846-883 | each final payload with a handler is handed to it in order, once, with the reply path, the hidden data and the value, up to the first one refused |
| Messenger.CallsAre | onionmsg/messenger.go:863-883 | payloads in order of type give one call for each type that has a handler, in order of type |
| Delivery.WalkFollowsStops | onionmsg/messenger.go:743-921 | an onion whose layers are addressed to linked stops is forwarded along exactly those stops |
| Delivery.RouteAddressed | routes/blinded.go:554-628 | every layer of a created route is addressed to its node under the ephemeral that node will hold, and decodes there |
| Delivery.RouteLinked | routes/blinded.go:511-546 | at every hop, the switch at the introduction node included, the hidden data opens and passes on the next hop and its ephemeral |
| Delivery.EndToEnd | onionmsg/messenger.go:743-921 | every created route with a hop to blind visits the clear hops, then the hidden ones, each holding the ephemeral its id and data were made with, and ends with the request's reply path, which must fit its counts, and, in order of type, those of its final payloads that are not empty under an unknown type |
| Delivery.DirectEndToEnd | routes/blinded.go:693-726 | a route straight to a blinded destination visits the hidden hops under their ephemerals and delivers no reply path and no final payloads |
| Delivery.RequestArrives | routes/blinded.go:386-459 | the last node gets what the request carries if and only if there was a hop to blind, the reply path fits its counts and no final payload is empty under an unknown type, or there was nothing to carry |
| Receiving.HandlersCalled | onionmsg/messenger.go:863-883 | at the end of every route with a hop to blind, the handlers called are those of the sender's types, the empty ones under an unknown type left out, in order, each with the sender's reply path, the last hop's hidden data and the sender's value for its type |
| RouteCreation.CreatedExactly | routes/blinded.go:386-459 | any request gets its route, packet room permitting, if and only if hops and both keys are given, the last hop is the destination's first node if there is one, there are 1 to 27 layers and the last payload can be written; which error comes first otherwise; it panics if and only if there are more than 28 layers, or 28 whose last payload can be written |
| RouteCreation.RetryIsRefused | routes/blinded.go:401-421 | a request for a blinded destination is used up: the same object is refused a second time, and with which error, unless the introduction node was also the hop before |
| Counterexamples.PayloadIsDropped | routes/blinded.go:693-726 | a sendable request straight to a reply path, carrying a payload of type 65, that is made and walked to its end without delivering it |
| Counterexamples.LongRouteOverflows | routes/blinded.go:554-628 | a valid request of 28 hops whose route creation panics |
| Counterexamples.EpochOfferIsRefused | lnwire/tu64.go:25-35 | an offer that expires at the epoch is encoded and its encoding does not decode |
| RelayPeers.CheckRelay | routes/blinded.go:223-252 | passes exactly the announced nodes with channels that set every required feature asked for |
| RelayPeers.EligibleExactly | routes/blinded.go:223-252 | who can introduce us: a found peer with channels and an announcement that sets every even feature asked for |
| RelayPeers.GetRelayingPeers | routes/blinded.go:171-219 | the eligible peers in the order of their channels; peers missing from the graph are skipped, other lookup errors fail |
| RelayPeers.BuildBlindedRoute | routes/blinded.go:115-157 | fails exactly without peers or on a bad key; else two hops through the first peer with the most channels |
| RelayPeers.CreateReplyPath | routes/blinded.go:83-108 | the introduction node is the first eligible peer with the most channels, and there is none exactly when nobody is eligible; the path's ids and sealed data are spelled out |
| RelayPeers.HomeIsReachable | routes/blinded.go:115-157 | the two-hop path is what end-to-end delivery asks of a blinded destination |
| RelayPeers.ReplyComesHome | routes/blinded.go:83-157 | any route created to our reply path, carrying a reply path that fits its counts if any, passes the introduction node and exits at us |
| Registration.StepKeeps | onionmsg/messenger.go:268-306 | every step of callers and loop keeps the invariant and only adds to what was served |
| Registration.Linearizable | onionmsg/messenger.go:268-306 | in every run the answers given are those of serving requests one at a time in the order served, each once, and every key is 64 or more |
| Registration.InvokedExactly | onionmsg/messenger.go:268-286 | in every run a new call is refused for a type below 64, else if nothing was started, else offered |
| Registration.RefusedAtOnce | onionmsg/messenger.go:268-305 | calls with a type below 64 and no others return that they are invalid, and none is found not started later |
| Registration.RealTimeOrder | onionmsg/messenger.go:268-306 | a call that was answered before another began is served before it |
| Registration.AnsweringNeverBlocks | onionmsg/messenger.go:597-610 | whenever the loop serves a request the slot for its answer is free |
| Registration.HangsExactly | onionmsg/messenger.go:281-305 | before shutdown no continuation without the quit step returns a call if and only if it is still offered and the loop has exited, as on a failed message stream; handlers take no time here, and how one holds the loop up is in `Waiting` |
| Registration.HangReachable | onionmsg/messenger.go:620-674 | a run to such a call: the message stream fails while the first registration is offered, and from then on only the quit step lets it return |
| Registration.QuitReturns | onionmsg/messenger.go:281-305 | the quit signal lets any call return |
| Registration.AnsweredOnce | onionmsg/messenger.go:597-610 | an answered request is never served again and its answer never changes |
| Subscription.StepKeeps | rpcserver/impl_subscribe_onion_payload.go:60-131 | every step of subscriptions, loop, clients and shutdown keeps the invariant |
| Subscription.OneLivePerType | rpcserver/impl_subscribe_onion_payload.go:87-131 | in every run a live subscription owns the handler of its type, so no two of one type are live |
| Subscription.DeregistersItsOwn | rpcserver/impl_subscribe_onion_payload.go:96-101 | a deregistration that is served succeeds and removes the asker's own handler and no other |
| Subscription.HandlersHaveOwners | onionmsg/messenger.go:686-712 | a registered handler belongs to a registering, live or leaving subscription, unless the messenger has quit |
| Subscription.StreamOrder | rpcserver/impl_subscribe_onion_payload.go:68-118 | a client has been sent a prefix of what its handler accepted, at most the one in hand and the one buffered behind |
| Dispatching.EveryPayloadAccounted | onionmsg/messenger.go:846-883 | in every run the messages that arrived are taken one by one and the payloads of each dealt with in order until a handler's error drops the rest; each goes to the subscription whose handler its type has then, or to nobody if it has none, and what a subscription accepted is just that, in order |
| Subscription.HeldUpExactly | rpcserver/impl_subscribe_onion_payload.go:71-90 | the loop cannot move exactly when it is in a handler whose slot is full while neither the client nor the server has called off |
| Subscription.EmbraceLasts | rpcserver/impl_subscribe_onion_payload.go:96-118 | a loop in the handler of a subscription that waits to deregister stays there until that client cancels or the server quits |
| Subscription.EmbraceReachable | rpcserver/impl_subscribe_onion_payload.go:29-33 | a run that gets there: one payload being sent, one buffered, the send fails, a third arrives |
| Waiting.EmbraceEnds | rpcserver/impl_subscribe_onion_payload.go:80-88 | the client's cancel or the server's quit frees the loop for the subscription |
| Subscription.OfferHangsExactly | onionmsg/messenger.go:281-305 | before shutdown no continuation without the messenger's quit takes up an offered registration or deregistration, clients being free to cancel and the server to quit, if and only if the loop has exited |
| Waiting.OfferStuckExactly | rpcserver/impl_subscribe_onion_payload.go:71-118 | no continuation without a cancel or the server's quit takes up an offered registration or deregistration if and only if the server has not quit and the loop has exited or is bound for a stuck handler: among the payloads it still hands out, before any handler that can give up, one reaches an uncancelled subscription that is leaving and whose slot is full by then |
| Waiting.BystanderWaits | rpcserver/impl_subscribe_onion_payload.go:29-33 | a run into such a wait with the loop alive: another client subscribes while the loop and a leaving subscription wait for each other, and its registration is not taken up until someone cancels or the server quits |
| Shutdown.StepWorks | rpcserver/impl_subscribe_onion_payload.go:71-130 | every step of the loop or a subscription leaves strictly less work, and the world adds at most what it brings |
| Shutdown.WorkIsBounded | onionmsg/messenger.go:597-681 | in every run the steps taken by loop and subscriptions are at most the work they were given, less the work left |
| Shutdown.NothingStuck | onionmsg/messenger.go:281-305 | with both quit signals closed, whoever has not exited has a step to take |
| Shutdown.ShutdownTerminates | rpcserver/server.go:105-124 | from any reachable state with both signals closed, a run without new input is bounded, and where it cannot go on everything has exited |

## Left out

- Invoice.InvoiceRoundTrip: says nothing about a negative relative expiry, whose conversion from a floating-point number of seconds to an unsigned integer differs between processors.
- Routes.BlindedRouteRequest.CreateBlindedRoute: returns an error value, `IndexOutOfRange`, where the code panics; what happens to the rest of the program then is not modelled.
- OnionPayload.PayloadRoundTrip: is stated for final payloads of odd type or of types 64 and 66, so that it does not rest on how the library treats unknown even types.
- Merkle.RootIndependence: says nothing about lists that repeat a type, whose order after sorting is not specified.
- Delivery.EndToEnd: asks of a blinded destination that its recipient told each hop the next one; destinations with overrides inside them are not covered. Like PayloadRoundTrip, it is about final payloads of odd type or of types 64 and 66.
- The wallet's tlv library, its feature vector codec, the curve, Schnorr signatures, SHA-256 and the sphinx packet format are not part of this repository. Streams are modelled from the behaviour the code relies on; the rest are parameters with stated laws.
- Whether the library fails on unknown even types: streams here read them as raw bytes.
- Regrouping five-bit digits is specified by its value as a number; the library's bit-by-bit loop is not modelled.
- The session key of an onion and the replay log of its router: an onion is its list of addressed layers.
- Framing of an onion message on the wire (lnwire/onion_message.go, onionmsg/onion.go:28-41): two length-prefixed fields.
- A handler's verdict on a payload is a function of its arguments in `Messenger`; its blocking on a channel is modelled in `Subscription`.
- In `Subscription` a message is its list of final payloads, and its values are numbers: what they hold does not matter there.
- Timers, retries and contexts beyond "cancelled", and the network calls of SendMessage, lookupAndConnect and the reply path generator: their results are inputs.
- Slices that share memory, as the nonce tag's append could: values are copied here.
- gRPC servers, configuration, macaroons, logging, protobuf conversion and field-presence checks of rpc requests, which would add only easy members.
- Validation of invoices (lnwire/bolt12_invoice.go:143-179): plain checks of which fields are set.
