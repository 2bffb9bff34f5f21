# Verification of the local proxy

A Dafny 4.11 model of `local_proxy`, a proxy that forwards HTTP, CONNECT and transparent connections
through a stack of upstream proxies, splits TLS ClientHello records on the way, and answers DNS queries over
HTTPS. `dafny verify dfyconfig.toml` checks everything.

## What is modelled

**The fragment layer** (`FragmentSpec`, `FragmentInvariant`, `FragmentRuns`, `FragmentTheorems`, `FragmentDelivery`,
`FragmentProgress`, `FragmentShutdown`, `FragmentRecords`, `FragmentAnswers`, `FragmentLayer`,
`TlsRecord`). The class `FragmentLayer` has the buffers, the chunk, the
timer and the nested loops of the original. Its methods are proved equal to a simpler machine, `FragmentSpec`,
which knows no chunks: it gathers bytes until their verdict is known and then drips or drains them. All whole-run
theorems are about that machine. The inner stream is a script of answers of any length - pending, failed, or
ready with any count up to what was offered - which is pending when the script runs out; the timer's answer is a
parameter of each read. A run is any sequence of reads, writes, flushes and shutdowns.

The raw loop (fragment.rs:202-209) offers the buffer from its start on every iteration, and counts on from the end of
the record after a split. It is modelled as it stands, so preservation of the byte stream is not unconditional.
Proved instead are the exact law of what is sent, and exactly when it is right: the raw loop is faithful
for all buffers if and only if no write is cut short, and a run whose raw writes are whole delivers
the meaning of the client's stream if and only if the held bytes do not reach beyond the record that is split. The
raw loop accepts writes of nothing, so it need not end; proved is exactly when it does. A shutdown drops whatever is
still held; it loses nothing if and only if the client has sent nothing. Some lemmas give runs that lose or repeat
bytes.

**DNS over HTTPS** (`DohQuery`, `DnsListener`, `DnsListenerRuns`, `DnsTheorems`, `DnsAnswers`). One query is modelled in
place, with its ID overwritten and restored in arrays and its body collected in nested loops. The listeners are
a step system: any number of them, each with its own bounded channel, any number of queries, and the lookups of the
program itself share one cache, with a step for each stretch between two awaits. Entries may be forgotten at any moment.

**Addresses, URIs and requests** (`Text`, `Addr`, `Percent`, `Base64`, `UriParse`, `HttpProxy` and their theorems).
Each printer is paired with its parser, and the condition under which a value survives is given exactly. The
text form of IPv6 addresses, UTF-8, and the texts that the `http` crate takes for the parts of a URI are parameters
(`Addr.Library`), and `Addr.Faithful` is asked of the first. That the crate drops fragments, and that it demands scheme
and authority together, is modelled. A rewritten request is described header by header.

**SOCKS5 and SOCKS4A** (`Handshake`, `Socks5`, `Socks5Server`, `Socks4`, `Socks4Server`). The clients run against any
deterministic server; a read that finds nothing fails, so success means that the conversation never stalls. The
reference servers are written from sections 3, 4 and 6 of RFC 1928, section 2 of RFC 1929, and the SOCKS 4A note.
RFC 1929 asks for at least one byte of user name and password; the client sends empty ones when none are configured,
and what a server makes of them is part of its policy in the model.

**The proxy stack** (`ProxyStack`, `ProxyStackTheorems`). The configuration becomes a list, and `connect` consumes it
through an iterator. The values of `fragment` above 2 act like 2, where config_example.json5 documents only 0, 1 and 2.

**Racing dials** (`HappyEyeballs`, `HappyEyeballsTheorems`). Two branches look the host up, clone the iterator and dial;
when both have failed, the host is dialled by name. A dial goes down the stack entry by entry and up again layer by
layer, any step of it may fail, and the steps come in any order.

## Model

| member | source | states |
|---|---|---|
| `TlsRecord.HeaderOf` | local_proxy/src/outbound/layer/fragment.rs:283-292 | a header needs five bytes; type and version are its first three, and bytes 3 and 4 are the two big-endian digits of the length |
| `TlsRecord.HeaderOfPrinted` | local_proxy/src/outbound/layer/fragment.rs:283-292 | the header of every record of up to 65535 bytes (section 5.1 of RFC 8446) is read back, whatever follows |
| `TlsRecord.ParsePrinted` | local_proxy/src/outbound/layer/fragment.rs:283-292 | a stream of written records is read back as those records |
| `TlsRecord.PrintParsed` | local_proxy/src/outbound/layer/fragment.rs:283-292 | the records read from any stream, written again, are the stream |
| `TlsRecord.FragmentedLength` | local_proxy/src/outbound/layer/fragment.rs:161-194 | splitting takes six bytes for each payload byte |
| `TlsRecord.OneByteRecordsAt` | local_proxy/src/outbound/layer/fragment.rs:180-193 | the k-th record has the type and version of the original and exactly the k-th payload byte, so none is empty |
| `TlsRecord.FragmentedParses` | local_proxy/src/outbound/layer/fragment.rs:161-194 | a record reader (section 5.1 of RFC 8446) takes the split bytes for exactly those records, whatever follows |
| `TlsRecord.FragmentingKeepsMeaning` | local_proxy/src/outbound/layer/fragment.rs:161-200 | splitting the first record of any stream changes nothing for a receiver that ignores record boundaries |
| `TlsRecord.FragmentedIsStream` | local_proxy/src/outbound/layer/fragment.rs:180-193 | what the layer writes for a record are records of one byte each |
| `FragmentLayer.FragmentLayer.constructor` | local_proxy/src/outbound/layer/fragment.rs:46-57 | a new layer is waiting, empty, without a timer |
| `FragmentLayer.FragmentLayer.TryIntoRawSend` | local_proxy/src/outbound/layer/fragment.rs:260-273 | a waiting layer hands its buffer over with the count at 0; other states are left alone |
| `FragmentLayer.NextRecord` | local_proxy/src/outbound/layer/fragment.rs:180-193 | the next chunk is the one-byte record for the next byte while there is one |
| `FragmentLayer.FragmentLayer.SendByte` | local_proxy/src/outbound/layer/fragment.rs:165-175 | one flush and one write of the chunk take exactly one step of the drip |
| `FragmentLayer.FragmentLayer.SendChunk` | local_proxy/src/outbound/layer/fragment.rs:165-175 | the inner loop leaves the rest of the drip unchanged, and stops only at the end of the chunk or at an answer that is not ready |
| `FragmentLayer.FragmentLayer.BuildChunk` | local_proxy/src/outbound/layer/fragment.rs:177-193 | stepping over a sent byte and building the next chunk loses and repeats nothing of what is to be sent |
| `FragmentLayer.FragmentLayer.SendChunks` | local_proxy/src/outbound/layer/fragment.rs:161-194 | the nested loops with their lazily built chunks drip the split record byte by byte, however often they are cut off and resumed; they end under a lexicographic measure |
| `FragmentLayer.FragmentLayer.SendRaw` | local_proxy/src/outbound/layer/fragment.rs:202-209 | the raw loop offers the whole buffer until the counts reach its length, and then turns transparent |
| `FragmentLayer.FragmentLayer.Hold` | local_proxy/src/outbound/layer/fragment.rs:110-150 | the two waiting stages together come to one verdict on all the bytes held |
| `FragmentLayer.FragmentLayer.PollFlush` | local_proxy/src/outbound/layer/fragment.rs:155-212 | a flush does what the specification says, in every state and for every script |
| `FragmentLayer.FragmentLayer.PollWrite` | local_proxy/src/outbound/layer/fragment.rs:95-153 | a write does what the specification says, and so do the acknowledged bytes |
| `FragmentLayer.FragmentLayer.PollRead` | local_proxy/src/outbound/layer/fragment.rs:63-88 | a read does what the specification says, with its timer |
| `FragmentLayer.FragmentLayer.PollShutdown` | local_proxy/src/outbound/layer/fragment.rs:214-219 | a shutdown goes straight to the inner stream |
| `FragmentLayer.Drive` | local_proxy/src/outbound/layer/fragment.rs:59-220 | a layer polled in any order is where the runs of the specification say |
| `FragmentRuns.FlushKeeps` | local_proxy/src/outbound/layer/fragment.rs:155-212 | a flush, wherever it is cut off, keeps the invariant, and one that succeeds while held bytes are being sent ends transparent |
| `FragmentRuns.PollKeeps` | local_proxy/src/outbound/layer/fragment.rs:63-219 | every poll keeps the invariant that ties phase, log, acknowledged and held bytes together |
| `FragmentRuns.EveryRunIsSound` | local_proxy/src/outbound/layer/fragment.rs:63-219 | the invariant holds after every run |
| `FragmentTheorems.EmissionLaw` | local_proxy/src/outbound/layer/fragment.rs:63-212 | nothing is sent while waiting; while fragmenting, sent and unsent make up the split record; once transparent, the split record, one prefix of the held bytes for each raw write, and then exactly the later bytes |
| `FragmentTheorems.EveryRunIsDisciplined` | local_proxy/src/outbound/layer/fragment.rs:165-174 | over every run, each write of the chunk loop offers one byte and comes directly after a successful flush |
| `FragmentTheorems.WholeDrain` | local_proxy/src/outbound/layer/fragment.rs:202-209 | with whole writes the raw loop sends the buffer once, or nothing if the count starts at its end |
| `FragmentTheorems.RawLoopFaithfulIff` | local_proxy/src/outbound/layer/fragment.rs:202-209 | from count 0 the raw loop sends every buffer unchanged if and only if each write took nothing or everything |
| `FragmentTheorems.WholeWritesEmission` | local_proxy/src/outbound/layer/fragment.rs:155-212 | the bytes sent by a transparent run with whole raw writes, with and without a record to split |
| `FragmentTheorems.TranslateKeepsMeaning` | local_proxy/src/outbound/layer/fragment.rs:161-200 | the intended translation of any stream means the same to a receiver of records |
| `FragmentDelivery.FaithfulIff` | local_proxy/src/outbound/layer/fragment.rs:95-212 | a transparent run with whole raw writes sent the meaning of the acknowledged bytes if and only if the held bytes do not reach beyond the split record |
| `FragmentDelivery.TranslatedIff` | local_proxy/src/outbound/layer/fragment.rs:95-212 | if a verdict was reached, the bytes sent are the translation of the acknowledged bytes under exactly the same condition |
| `FragmentDelivery.ReadGrows` | local_proxy/src/outbound/layer/fragment.rs:68-85 | a read acknowledges nothing, never goes back a state, and leaves a timer if and only if the layer still waits |
| `FragmentDelivery.WriteGrows` | local_proxy/src/outbound/layer/fragment.rs:102-108 | a write never goes back a state and acknowledges nothing while held bytes are being sent |
| `FragmentDelivery.RunGrows` | local_proxy/src/outbound/layer/fragment.rs:222-273 | along every run the state rank never falls, acknowledged bytes are only added to, and the held bytes stay fixed once gathering has stopped |
| `FragmentDelivery.StraddlesIffNoCut` | local_proxy/src/outbound/layer/fragment.rs:137-150 | the held bytes reach beyond the record if and only if no write ended where the record ends |
| `FragmentDelivery.DecidedUnlessExpired` | local_proxy/src/outbound/layer/fragment.rs:74-78 | unless the timer fires, gathering ends only with a verdict |
| `FragmentDelivery.CleanRunTranslates` | local_proxy/src/outbound/layer/fragment.rs:95-212 | a run to the end that does not straddle its record, expire, or have a raw write cut short sends the translation of its stream |
| `FragmentDelivery.SlicingDoesNotMatter` | local_proxy/src/outbound/layer/fragment.rs:95-153 | two runs over the same client bytes, cut differently into writes and interleaved differently, send the same bytes if both are of that kind |
| `FragmentRecords.VerdictIff` | local_proxy/src/outbound/layer/fragment.rs:115-148 | the verdict, byte by byte: type 22, message 1, and a length that is there |
| `FragmentRecords.CleanRunSplitsHello` | local_proxy/src/outbound/layer/fragment.rs:95-212 | a clean run sends a stream that starts with a ClientHello record as one record for each of its bytes and then the rest as it is, and any other stream unchanged |
| `FragmentRecords.ExactWriteIsSplit` | local_proxy/src/outbound/layer/fragment.rs:95-212 | for every such record there is that run: one write of it, and one flush |
| `FragmentAnswers.WriteAcknowledges` | local_proxy/src/outbound/layer/fragment.rs:95-153 | a write answers with the number of bytes it acknowledges, and with all of them while the layer gathers |
| `FragmentAnswers.WriteReachesInner` | local_proxy/src/outbound/layer/fragment.rs:102-108 | a write that succeeds after gathering is a write of the same bytes to the inner stream |
| `FragmentAnswers.FlushReachesInner` | local_proxy/src/outbound/layer/fragment.rs:155-212 | a flush succeeds only by a flush of the inner stream |
| `FragmentAnswers.ReadReachesInner` | local_proxy/src/outbound/layer/fragment.rs:83-87 | a read always reads the inner stream, even with held bytes unsent, unless sending them fails |
| `FragmentAnswers.TimerEndsGathering` | local_proxy/src/outbound/layer/fragment.rs:68-81 | an expired timer ends gathering, with all bytes held, and nothing else in a read does |
| `FragmentAnswers.DripPassesAnswersOn` | local_proxy/src/outbound/layer/fragment.rs:166-172 | a chunk loop that stops has the answer of the call that stopped it, or fails on a write of nothing |
| `FragmentProgress.DripCompletes` | local_proxy/src/outbound/layer/fragment.rs:163-194 | with an inner stream that takes something each time, the chunk loop ends after exactly one flush and one write for each byte |
| `FragmentProgress.DripEndsIff` | local_proxy/src/outbound/layer/fragment.rs:163-194 | for every script, the chunk loop ends if and only if each byte gets a flush that is ready and then a write that takes it |
| `FragmentProgress.DripIsBounded` | local_proxy/src/outbound/layer/fragment.rs:163-194 | for every script, at most two inner calls for each byte, and what is unsent is a suffix |
| `FragmentProgress.DrainEndsIff` | local_proxy/src/outbound/layer/fragment.rs:203-206 | for every script, the raw loop ends if and only if some of the first answers, all ready, bring its count to the length of the buffer |
| `FragmentProgress.WillingDrainEnds` | local_proxy/src/outbound/layer/fragment.rs:203-206 | an inner stream that takes at least one byte each time ends the raw loop |
| `FragmentProgress.DrainSpinsOnZeroWrites` | local_proxy/src/outbound/layer/fragment.rs:203-206 | the raw loop takes any number of writes of nothing without advancing or failing |
| `FragmentProgress.WillingFlushEnds` | local_proxy/src/outbound/layer/fragment.rs:155-212 | from every state in which bytes are held, one flush over such a stream gets through and turns transparent |
| `FragmentProgress.StraddlingWriteIsRepeated` | local_proxy/src/outbound/layer/fragment.rs:196-206 | for every first write beyond its record there is a run that sends the split record and then the whole write again |
| `FragmentProgress.ShortRawWritesRepeatTheFirstByte` | local_proxy/src/outbound/layer/fragment.rs:203-206 | a run with two short raw writes that sends the first byte twice and the second never |
| `FragmentShutdown.EveryRunIsUnfinished` | local_proxy/src/outbound/layer/fragment.rs:161-206 | between polls a layer that holds bytes has some of them left to send, except after a record without a payload |
| `FragmentShutdown.SentIsShort` | local_proxy/src/outbound/layer/fragment.rs:63-212 | in every reachable state before transparency, less has been sent than should have been, unless the client has sent nothing |
| `FragmentShutdown.ShutdownIsCompleteIff` | local_proxy/src/outbound/layer/fragment.rs:214-219 | a shutdown before transparency leaves the intended translation on the wire if and only if the client has sent nothing |
| `FragmentShutdown.ShutdownDropsHeldBytes` | local_proxy/src/outbound/layer/fragment.rs:214-219 | in particular, bytes that wait for a verdict are lost at a shutdown |
| `DohQuery.Collect` | local_proxy/src/utils/dns.rs:51-62 | the collected body is all the data of all the frames in order, or an error if a frame fails |
| `DnsAnswers.BodyIsAllTheData` | local_proxy/src/utils/dns.rs:51-62 | the body is the pieces of all data frames in order, or an error if any frame is broken |
| `DohQuery.DnsCache.BeginQuery` | local_proxy/src/utils/dns.rs:12-23 | the query's ID is replaced in place, and a cached body comes back with the caller's ID |
| `DohQuery.DnsCache.Patch` | local_proxy/src/utils/dns.rs:18-20 | the ID of a body is overwritten in place, if it has one |
| `DohQuery.DnsCache.FinishQuery` | local_proxy/src/utils/dns.rs:64-73 | the cache gets the body as it was before the ID was restored |
| `DnsListenerRuns.StepKeeps` | local_proxy/src/inbound/dns.rs:12-59 | every step of every interleaving keeps the invariant, whether it belongs to one of the listeners, to a spawned query or to a lookup of the program itself |
| `DnsListenerRuns.EveryRunHolds` | local_proxy/src/inbound/dns.rs:12-59 | the invariant holds over every interleaving of any number of listeners, queries and lookups over one cache |
| `DnsTheorems.EveryReplyIsAnAnswer` | local_proxy/src/inbound/dns.rs:12-59 | every datagram sent answers a query of its own, through the listener that received it and to its address, with a body that upstream returned for that query; no channel is ever over 1024 |
| `DnsTheorems.ReplyContents` | local_proxy/src/utils/dns.rs:12-73 | the reply is the query's two ID bytes (section 4.1.1 of RFC 1035) and bytes 2 on of a body upstream returned for the query with ID ab cd (section 4.1 of RFC 8484), fetched by this query or cached at most 3600 seconds |
| `DnsTheorems.ResolverContents` | local_proxy/src/utils/addr.rs:102-112 | the program's own lookups get the same kind of answer, with the ID ab cd |
| `DnsTheorems.CacheAgreesWithUpstream` | local_proxy/src/utils/dns.rs:17-68 | every reachable cache entry, whoever it was fetched for, has a key with ID ab cd and the unpatched body upstream returned for it |
| `DnsTheorems.QueriesAreConserved` | local_proxy/src/inbound/dns.rs:20-59 | all queries are in flight, in a channel, sent, lost, handed to the program or dropped, and nothing else |
| `DnsTheorems.LookupFailsIff` | local_proxy/src/utils/dns.rs:13-23 | in every run, the lookup of a query with an ID fails if and only if a live entry holds a body without one, which upstream has returned for the same key |
| `DnsTheorems.ShortBodyIsCached` | local_proxy/src/utils/dns.rs:64-71 | a body without an ID is cached before the query fails, and fails later queries for the same key |
| `DnsAnswers.MissAsksUpstream` | local_proxy/src/utils/dns.rs:13-34 | without a live entry upstream is asked the query with ID ab cd |
| `DnsAnswers.HitIsAnswered` | local_proxy/src/utils/dns.rs:17-23 | with a live entry its body is queued with the ID of the query, and upstream is not asked |
| `DnsAnswers.ResponseIsAnswered` | local_proxy/src/utils/dns.rs:51-73 | a whole response is queued with the ID of the query that asked for it, and is live from then on |
| `DnsAnswers.EntriesGoAway` | local_proxy/src/utils/dns.rs:17-68 | an entry that is forgotten or more than 3600 seconds old makes the next query go to upstream again |
| `DnsAnswers.StepKeepsOrder` | local_proxy/src/inbound/dns.rs:16-39 | replies leave a listener in the order in which they were queued |
| `AddrTheorems.ParsePrintedV4` | local_proxy/src/utils/addr.rs:148-171 | IPv4 text is read back |
| `AddrTheorems.ParseV4Iff` | local_proxy/src/utils/addr.rs:165 | the only text of an IPv4 address is its dotted decimal one |
| `AddrTheorems.MappedTextIsV4` | local_proxy/src/utils/addr.rs:188-195 | the text of ::ffff:a.b.c.d is the IPv4 address a.b.c.d |
| `Text.ParsePortIff` | local_proxy/src/utils/addr.rs:25-27 | the texts of a port are an optional plus sign, any number of zeros, and its decimal digits, and nothing else |
| `AddrTheorems.HostNameRoundTripIff` | local_proxy/src/utils/addr.rs:132-195 | a host name is read back from its text, bracketed or not, if and only if it is canonical |
| `AddrTheorems.SocketAddrRoundTripIff` | local_proxy/src/utils/addr.rs:37-62 | a socket address is read back from its text if and only if its host is canonical |
| `AddrTheorems.BareV6IsRejected` | local_proxy/src/utils/addr.rs:25-27 | a bracketed IPv6 host without a port is an error |
| `AddrTheorems.AuthorityRoundTripIff` | local_proxy/src/utils/addr.rs:21-34 | a host with an optional port is read back if and only if it is canonical and has a port whenever its text has a colon |
| `AddrTheorems.PortIsOptional` | local_proxy/src/utils/addr.rs:132-137 | the only host texts with a colon are IPv6 ones and domains that contain one |
| `Percent.DecodeEncode` | local_proxy/src/utils/uri_parse.rs:63-66 | percent-decoding undoes percent-encoding for every byte string (section 2.1 of RFC 3986) |
| `Percent.HexValueIff` | local_proxy/src/utils/uri_parse.rs:63-66 | hex digits count in either case, and no other character does |
| `Percent.EscapeIsDecoded` | local_proxy/src/utils/uri_parse.rs:63-66 | an escape stands for its byte |
| `Percent.EncodedIsPlain` | local_proxy/src/utils/uri_parse.rs:109-116 | encoded text holds only letters, digits and percent signs, so none of the delimiters of section 3.2 of RFC 3986 |
| `Percent.OnlyAlphanumericsStay` | local_proxy/src/utils/uri_parse.rs:109-116 | exactly the ASCII letters and digits stay as they are; every other byte becomes a percent sign and two capital hex digits |
| `UriParse.BuildUri` | local_proxy/src/utils/uri_parse.rs:102-136 | the piecewise construction prints the URI, and fails if the library does not take one of the texts or if only one of scheme and host is there |
| `UriTheorems.UserInfoRoundTrip` | local_proxy/src/utils/uri_parse.rs:60-67 | the user and the password are read back, whatever their bytes |
| `UriTheorems.ParsedIsWellTyped` | local_proxy/src/utils/uri_parse.rs:58-67 | every parsed user and password is UTF-8, and there is a user exactly when there is an at sign |
| `UriTheorems.UserInfoIsReadIff` | local_proxy/src/utils/uri_parse.rs:60-67 | user info is read if and only if the decoded user, and the decoded password after the first colon, are UTF-8 |
| `UriTheorems.SiteRoundTripIff` | local_proxy/src/utils/uri_parse.rs:58-75 | the authority is read back if and only if the user info and the port have a host, a password has a user, and the host is canonical, without an at sign, and port-safe |
| `UriTheorems.PathRoundTripIff` | local_proxy/src/utils/uri_parse.rs:77-85 | path and query are found again behind one another if and only if neither is empty, the path has no question mark, and neither has a number sign, where the library cuts them |
| `UriTheorems.FragmentIsDropped` | local_proxy/src/utils/uri_parse.rs:128-135 | everything from the first number sign on is dropped when a URI is built, and nothing else |
| `UriTheorems.UriRoundTripIff` | local_proxy/src/utils/uri_parse.rs:45-136 | a URI is built and read back if and only if the library takes its texts, scheme and host come together, and its authority and its path and query survive |
| `HttpProxy.Request.RemoveProxyHeaders` | local_proxy/src/inbound/http/http_proxy.rs:64-73 | exactly the headers whose names start with proxy- are gone |
| `HttpProxy.Request.Rewrite` | local_proxy/src/inbound/http/http_proxy.rs:18-94 | exactly when the rewrite succeeds, and what the request then is: each of its headers, and its URI |
| `HttpTheorems.TargetIff` | local_proxy/src/inbound/http/http_proxy.rs:20-49 | a full URI is the target if and only if it is an http or https one with a host; any other request goes by http to its Host header |
| `HttpTheorems.ForwardedHeaders` | local_proxy/src/inbound/http/http_proxy.rs:27-63 | the request's own authorization is never touched, and otherwise the user of a full URI is filled in; te is trailers or gone |
| `HttpTheorems.ListsTrailersIff` | local_proxy/src/inbound/http/http_proxy.rs:51-56 | te is kept if and only if an item of the list, without spaces around it and without parameters, is the word trailers |
| `HttpTheorems.OtherHeadersPassThrough` | local_proxy/src/inbound/http/http_proxy.rs:64-73 | every other header is kept as it was, unless its name starts with proxy- |
| `HttpTheorems.ReducedText` | local_proxy/src/utils/uri_parse.rs:77-133 | what is left of the URI is the text of its path and query, with a slash if there is no path and without a trailing question mark |
| `Text.JoinSplit` | local_proxy/src/inbound/http/http_proxy.rs:53-55 | the parts of a split text, joined again, are the text, and none holds the separator |
| `Base64.DecodeEncode` | local_proxy/src/inbound/http/http_proxy.rs:29-35 | base64 decoding undoes encoding for every byte string (section 4 of RFC 4648) |
| `Base64.GroupIsNumber` | local_proxy/src/inbound/http/http_proxy.rs:29-35 | four digits are the same number as three bytes |
| `HttpTheorems.BasicAuthIsReadIff` | local_proxy/src/inbound/http/http_proxy.rs:27-40 | a server that cuts the credentials at their first colon (section 2 of RFC 7617) finds user and password again if and only if the user holds no colon |
| `HttpTheorems.ForwardingAgainChangesNothing` | local_proxy/src/inbound/http/http_proxy.rs:27-73 | a second proxy of this kind changes no header but Host |
| `HttpTheorems.ElisionIsInvisibleIff` | local_proxy/src/outbound/mod.rs:98-108 | the address dialled from the written Host header is the target with its effective port if and only if the host is canonical and port-safe with the port that is shown |
| `HttpTheorems.OnlyDefaultPortsAreLeftOut` | local_proxy/src/inbound/http/http_proxy.rs:75-86 | port 80 is left out for http and port 443 for https, and no other |
| `HttpTheorems.DefaultPortsAreDialled` | local_proxy/src/outbound/mod.rs:98-108 | a host without a port is dialled at 80 for http and 443 for https, and not at all for another scheme |
| `HttpTheorems.V6NeedsAnotherPort` | local_proxy/src/inbound/http/http_proxy.rs:75-86 | for IPv6 targets the header is accepted if and only if a port other than the default is given |
| `ProxyStack.PushProxy` | local_proxy/src/main.rs:60-88 | a configured proxy becomes its TLS layers and its entry, or an error if a layer, the kind, the server, or the length or a NUL of user or password is wrong |
| `ProxyStackTheorems.HopOfIff` | local_proxy/src/main.rs:60-88 | a configured proxy is a hop if and only if its protocol is the text of the hop's layers and kind, its server is the hop's, and user and password fit the kind |
| `ProxyStack.BuildStack` | local_proxy/src/main.rs:36-94 | the stack is the raw connection, the hops in order, and the fragment layer if it is on |
| `ProxyStackTheorems.ThroughLast` | local_proxy/src/main.rs:36-90 | the last hop is reached through all the others |
| `ProxyStackTheorems.ConnectTls` | local_proxy/src/outbound/layer/mod.rs:35-42 | TLS layers on a stack wrap its connection, each with the host asked for |
| `ProxyStackTheorems.ConnectFollowsPlan` | local_proxy/src/outbound/layer/mod.rs:35-42 | for every list of hops the iterator is never exhausted; TCP goes to the first server, each hop's own TLS layers come next, and hop i is asked for the server of hop i+1, the last one for the address |
| `ProxyStackTheorems.FragmentingComesLast` | local_proxy/src/main.rs:92-94 | with the fragment layer the same steps are taken and fragmenting starts after them |
| `ProxyStackTheorems.SelectedStack` | local_proxy/src/inbound/http/http_proxy.rs:97-107 | for every base stack, the stack used is the base and one fragment layer on top, if and only if it is wanted |
| `ProxyStackTheorems.PlainHttpSkipsFragment` | local_proxy/src/outbound/layer/mod.rs:51-59 | plain http takes the same route with and without the fragment layer, and there is one |
| `ProxyStackTheorems.PlainHttpRoute` | local_proxy/src/outbound/http.rs:93-101 | plain http goes to the last hop's own server and is forwarded if that hop is an HTTP proxy, and goes to the origin through all hops in every other case |
| `ProxyStackTheorems.HttpsRoute` | local_proxy/src/outbound/mod.rs:114-123 | https goes to the origin through all hops, with TLS on top, and the fragment layer directly under it if there is one |
| `HappyEyeballsTheorems.StepHeads` | local_proxy/src/outbound/raw.rs:17-28 | a dial that takes entry after entry out of its iterator, and then adds layer after layer, never changes the connection it heads for, which is that of `connect` |
| `HappyEyeballsTheorems.StepKeeps` | local_proxy/src/outbound/mod.rs:58-88 | every step of either branch or of the dial by name keeps the invariant of the race |
| `HappyEyeballsTheorems.FailsIff` | local_proxy/src/outbound/mod.rs:48-89 | over every interleaving, the result is an error if and only if the dial by name failed and, for a name with DoH, both branches had failed |
| `HappyEyeballsTheorems.ByNameComesLast` | local_proxy/src/outbound/mod.rs:54-86 | with DoH, a name is not dialled before both branches have failed; without, and for an IP address, the address asked for is all that is ever dialled |
| `HappyEyeballsTheorems.BranchCanWin` | local_proxy/src/outbound/mod.rs:62-77 | with DoH, for every name and every address that can be reached there is a run in which the branch that finds it wins |
| `HappyEyeballsTheorems.NameCanWin` | local_proxy/src/outbound/mod.rs:78-85 | after two lookups without an address there is a run in which the name itself is reached, with a warning exactly if one of them was an error |
| `HappyEyeballsTheorems.AtMostOneWins` | local_proxy/src/outbound/mod.rs:61-88 | at most one of the three dials wins, and the result is its connection |
| `HappyEyeballsTheorems.EveryAttemptStartsFresh` | local_proxy/src/outbound/mod.rs:66-84 | every attempt gets the iterator as it was at the start, for an address of its own branch or for the name, and none is made twice |
| `HappyEyeballsTheorems.WinnerIsConnected` | local_proxy/src/outbound/mod.rs:62-84 | the winner's connection is what `connect` over the whole stack gives for the address found by its branch, or for the name |
| `HappyEyeballsTheorems.WinnerFollowsPlan` | local_proxy/src/outbound/mod.rs:62-84 | over a configured stack the winner has gone through all hops in order, and the fragment layer comes last if it is on |
| `HappyEyeballsTheorems.WarnedIff` | local_proxy/src/outbound/mod.rs:58-81 | there is a warning if and only if, for a name with DoH, both branches failed and the first answer to one of the lookups was an error |
| `HappyEyeballsTheorems.NeverStuck` | local_proxy/src/outbound/mod.rs:61-86 | until there is a result, some step is possible |
| `HappyEyeballsTheorems.EveryRaceEnds` | local_proxy/src/outbound/mod.rs:61-86 | a race over n + 1 entries is over after at most 6n + 12 steps |
| `Socks5.NewCredentials` | local_proxy/src/outbound/socks5.rs:20-42 | fails if and only if the user or the password is longer than its length byte can say, and keeps them as they are |
| `Socks5.Greet` | local_proxy/src/outbound/socks5.rs:58-64 | the greeting is sent, and the answer must name one of the two methods |
| `Socks5.Authenticate` | local_proxy/src/outbound/socks5.rs:66-79 | the credentials are sent as one RFC 1929 message, and two bytes are read |
| `Socks5.Ask` | local_proxy/src/outbound/socks5.rs:83-99 | the request is sent, unless a name is longer than 255 bytes |
| `Socks5.SkipBound` | local_proxy/src/outbound/socks5.rs:110-123 | the bound address is read to its end, whatever its type |
| `Socks5.ReadReply` | local_proxy/src/outbound/socks5.rs:101-123 | exactly a success reply is read |
| `Socks5.Connect` | local_proxy/src/outbound/socks5.rs:58-125 | against any server, the byte-wise client succeeds exactly when the message-wise handshake does, and ends at the same point |
| `Socks5Server.AuthComposes` | local_proxy/src/outbound/socks5.rs:58-81 | greeting and authentication get through if and only if the method is one of the two and the credentials are accepted if asked for |
| `Socks5Server.DestinationIsRead` | local_proxy/src/outbound/socks5.rs:84-98 | all three kinds of address are read back with their port, whatever follows |
| `Socks5Server.ReplyIsMeasured` | local_proxy/src/outbound/socks5.rs:101-123 | a reply is a success if and only if it starts with 5, 0, 0; the client then reads exactly the reply and nothing of the tunnel |
| `Socks5Server.HandshakeComposes` | local_proxy/src/outbound/socks5.rs:58-125 | against the reference server the handshake succeeds if and only if the method is one of the two, the status for the credentials is 0 if they are asked for, the name fits, and the reply has version 5, code 0 and reserved 0; the server then knows credentials and destination exactly, and every tunnelled byte is unread |
| `Socks5Server.SuccessIsGranted` | local_proxy/src/outbound/socks5.rs:58-125 | whatever the server is, the client reports a tunnel only if method, credentials and request were all granted, byte for byte |
| `Socks4.NewAuth` | local_proxy/src/outbound/socks4.rs:19-33 | fails if and only if the user or the password holds a NUL; the id is user, colon and password, and there is none if there is neither |
| `Socks4.Choose` | local_proxy/src/outbound/socks4.rs:49-70 | the address and host text of the request, or a rejection |
| `Socks4.Ask` | local_proxy/src/outbound/socks4.rs:78-89 | the request is sent with its fields in order |
| `Socks4.Connect` | local_proxy/src/outbound/socks4.rs:44-101 | against any server, the client succeeds exactly when the destination is sendable and the reply grants it, and has read eight bytes |
| `Socks4Server.RequestIsUnambiguousIff` | local_proxy/src/outbound/socks4.rs:49-88 | a server reads back port, user id and destination - the IPv4 address itself, or the exact host text behind a marker - and nothing more, if and only if the destination can be named, which is what the client checks |
| `Socks4Server.HandshakeComposes` | local_proxy/src/outbound/socks4.rs:44-101 | against the reference server the handshake succeeds if and only if the destination can be named and the reply is 0 and 90; the server then has read the destination as it was meant, and the tunnel is unread |
| `Socks4Server.UserIdIsReadIff` | local_proxy/src/outbound/socks4.rs:22-33 | a server that cuts the user id at its first colon finds user and password again if and only if the user holds no colon |

## Left out

- DnsListener.Step: the socket loops and the spawned tasks are steps on values, because their interleaving is the point; the parts of a query that work in place are methods of `DohQuery.DnsCache`. Truncation of datagrams over 65527 bytes and failed receives are not steps.
- FragmentLayer.InnerStream.PollRead: the bytes that come back from the server pass through unchanged and only their number is modelled; an inner stream that claims to have written more than it was offered is excluded by the contract of `AsyncWrite`.
- ProxyStack.Connect: describes the connection that results when every handshake on the way succeeds; the handshakes themselves are in `Socks4` and `Socks5`.
- ProxyStack.Dispatch: the fake host that DoH requests may dial instead of their own is not modelled; it changes the address asked for and not the route.
- Socks5.Connect: errors of the writes themselves, after which the original returns at once.
- Text of IPv6 addresses, UTF-8 validity, and which characters the parts of a URI may hold: parameters in `Addr.Library`.
- HappyEyeballs.Step: the race is a step system on values, because the order of its steps is the point; any step of a dial may fail, so failures that the original cannot have at that point are included.
- DNS message parsing and the answers picked in `HostName::dns_resolve`: messages are byte strings of which the first two bytes matter.
- The eviction order of the TTL cache: entries may vanish at any step.
- The HTTP CONNECT client, TLS, hyper, tokio and the sockets: libraries or HTTP framing.
- The transparent proxy crate `tproxy_tokio`: kernel interfaces.
- Configuration files, the questions on the console and the error page: user interface; the answers are fields of `ProxyStack.ProxyConfig`.
