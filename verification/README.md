# The ubus stack, in Dafny

This project models the data structures and protocols of a ubus installation: the containers of libubox and json-c, the
JSON parser and printer, the binary attributes that messages consist of, the broker, and the Java poller on top. What the C
and Java code changes in place is a class with methods here, and each method is proved against a function of the old state;
what follows from those functions, over every input or every run, is proved as lemmas.

| modules | what they model |
|---|---|
| AvlShape, AvlOrder, AvlLinks, AvlTree | `libubox/avl.c` on its pointers, with its list of all nodes in order and its runs of equal keys |
| LinkHash | `json-c/linkhash.c`, the hash table behind the objects of json-c |
| JsonValue, JsonTokener, JsonLevels, JsonChunks, JsonPairs, JsonUnicode, JsonComments, JsonParser | `json-c/json_tokener.c`: the state machine, and the class that runs it in place |
| JsonPrinter, JsonRoundTrip | `json-c/json_object.c`: the printer, and what the parser makes of its output |
| Utf8, JsonGrammar, JsonAccepts, JsonStandard | RFC 3629 and RFC 8259: JSON texts as trees and what they mean, that the parser reads each so, and that the printer writes nothing else |
| Bytes, BlobFormat, Blob, BlobTree | `libubox/blob.c`, `blob.h`: attributes in a buffer that moves |
| BlobmsgFormat, Blobmsg, BlobmsgRead, BlobmsgText, BlobmsgJson | `libubox/blobmsg.c`, `blobmsg_json.c`: JSON to attributes to JSON |
| SafeList, SafeWalk, WalkLog | `libubox/safe_list.c`: a list that callbacks change while it is walked, at any depth |
| RunQueue, RunQueueLaws | `libubox/runqueue.c`: tasks, callbacks, the timer |
| StreamBuffers, Ustream | `libubox/ustream.c`: chains of buffers between a reader, a writer and a backend |
| Base64, Base64Count, Md5Block, Md5 | `libubox/base64.c` and section 4 of RFC 4648; `libubox/md5.c` and section 3 of RFC 1321 |
| Lists, Strings, EventScan, BrokerGraph, BrokerSteps, Broker, BrokerProto, BrokerLookup, BrokerRuns | the broker, `ubus/ubusd_*.c`: its objects, types, subscriptions, patterns, clients and lookups, and its runs |
| NotifyRequest, NotifyProtocol | `ubus/libubus-req.c`: notifications, and who still has to answer |
| CallProtocol | `UbusPoller.java` with `ubus_wrapper.c`: calling threads and the poller thread |

`dafny verify dfyconfig.toml` checks all of it.

How the concurrent parts are modelled: a state holds what the threads, callbacks or peers share; an action is what one of them
does between two points where another can come in; a run is any sequence of enabled actions. Invariants are proved for the
first state and for each action, and the main results are about every state of every run.

## Model

| member | source | states |
|---|---|---|
| AvlTree.Tree.Insert | libubox/avl.c:219-303 | After an insertion the links form a balanced tree and the list again, and the list is the old one with the node behind all that are not greater; -1, and no change, exactly if there is an equal key and duplicates are not allowed. |
| AvlTree.Tree.Delete | libubox/avl.c:306-350 | After a deletion the links form a balanced tree and the list again, and the list is the old one without the node, also where the node leads a run or has two children. |
| AvlTree.Tree.DeleteWorker | libubox/avl.c:593-727 | The pointer surgery of a deletion yields exactly the shape in which the node is gone and all balances above are right. |
| AvlTree.Tree.PostInsert | libubox/avl.c:442-487 | From a subtree that has grown, the walk upwards leaves the links of the rebalanced tree, every stored balance exact. |
| AvlTree.Tree.PostDelete | libubox/avl.c:511-570 | The same from a subtree that has shrunk by one level. |
| AvlTree.Tree.Find | libubox/avl.c:114-129 | The leader of the run with an equal key, or NULL exactly if no node has one; n comparisons take a tree of at least Fib(n + 2) - 1 leaders. |
| AvlTree.Tree.FindLessEqual | libubox/avl.c:136-175 | The last node of the list whose key is not greater, or NULL if there is none. |
| AvlTree.Tree.FindGreaterEqual | libubox/avl.c:178-217 | The first node of the list whose key is not less, or NULL if there is none. |
| AvlTree.Tree.Shallow | libubox/avl.c:353-375 | In every valid tree a path of n nodes implies at least Fib(n + 2) - 1 leaders: searches are logarithmic. |
| AvlShape.EnoughNodes | libubox/avl.c:378-487 | A tree whose balances are all -1, 0 or 1, as the rotations keep them, has at least Fib(h + 2) - 1 nodes at height h. |
| AvlShape.ShrunkIsRight | libubox/avl.c:511-570 | Repairing upwards from a subtree that has shrunk gives a balanced tree with the same nodes in the same order. |
| AvlShape.RemovedOrder | libubox/avl.c:593-727 | Taking a node out of any balanced tree removes it from the order and nothing else. |
| AvlLinks.RotatedRightInPlace | libubox/avl.c:378-407 | The assignments of avl_rotate_right turn linked nodes into the rotated ones, with the stored balances that belong to them, wherever in the tree. |
| LinkHash.LhTable.ObjectAdd | json-c/json_object.c:380-397 | The table is a map in order of arrival: a key that is there keeps its place and gets the value, another comes last. |
| LinkHash.LhTable.Insert | json-c/linkhash.c:493-524 | The entry comes last, whether the table grows or not; probing finds every key afterwards. |
| LinkHash.LhTable.LookupEntry | json-c/linkhash.c:527-543 | It finds an entry exactly if the key is there, past freed slots too; in a table with a wrong size, exactly if the way through the slots below size leads to it. |
| LinkHash.LhTable.Delete | json-c/linkhash.c:592-597 | The key is gone and the rest is as it was, in the same order; -1 exactly if the key was not there. |
| LinkHash.LhTable.Resize | json-c/linkhash.c:460-478 | The list has the same keys and values in the same order; the table is in order again, with the size it says, exactly if all entries fit before the new table would grow itself. |
| LinkHash.LhTable.SomeKeyIsLost | json-c/linkhash.c:527-543 | Whenever there are more entries than size says, a key of the list is not found. |
| LinkHash.ResizeCanBreak | json-c/linkhash.c:460-478 | Two insertions and a resize to one slot leave a key in the list that a lookup does not find. |
| JsonRoundTrip.RoundTrip | json-c/json_object.c:266-282 | Parsing what the serializer wrote gives the value back, NaN and Infinity included, for all values within the nesting limit, all flags and both modes of the parser, if and only if no -Infinity stands behind a literal or a long escape; then it is an error. |
| JsonRoundTrip.OthersRead | json-c/json_tokener.c:353-385 | A value without -Infinity is always among those that are read back. |
| JsonRoundTrip.NegativeIsLost | json-c/json_tokener.c:353-385 | [true,-Infinity] is not. |
| JsonAccepts.EveryTextIsRead | json-c/json_tokener.c:231-882 | Every JSON text of RFC 8259, with any white space, escapes, pairs, numbers and repeated keys, is read as the value it stands for, strict or not, if it is within the nesting limit and has no pair that looks like half of one. |
| JsonStandard.PrintedIsText | json-c/json_object.c:299-344 | With all flags the serializer writes a JSON text of RFC 8259, and that text stands for the value, if the value has no NaN or infinity and its doubles are texts of JSON. |
| JsonStandard.EscapedIsString | json-c/json_object.c:96-139 | The escaped string keeps to section 7 of RFC 8259, no raw control character, quote or backslash in it, and stands for the string. |
| JsonPrinter.PrintBuf.Write | json-c/json_object.c:299-344 | The serializers append exactly the text that the round trip is about. |
| JsonPrinter.PrintBuf.EscapeStr | json-c/json_object.c:96-139 | The loop over runs of plain characters appends the escaped string, character by character. |
| JsonParser.Tokener.ParseEx | json-c/json_tokener.c:231-882 | The parser that works in place does what the state machine says, with its end position, error and result, in all three ways to give a length; in between calls it keeps its state. |
| JsonLevels.CallKeeps | json-c/json_tokener.c:231-882 | Whatever the input, and however it was cut: the depth stays below the limit, and every open level waits for a value that fits. |
| JsonChunks.CallIsSound | json-c/json_tokener.c:231-882 | After any calls: what has been read of an open number is number characters, and no string ends with a backslash. |
| JsonChunks.CutsInfinityIsText | json-c/json_tokener.c:666-712 | What touches -Infinity means for the text: the first chunk ends in an open number that begins with a minus sign, one character long, or one before the last that b adds. |
| JsonChunks.ChunksDoNotMatter | json-c/json_tokener.c:205-226 | Input in two chunks gives what the whole gives, unless the first ends within a pair of escapes or the cut touches -Infinity. |
| JsonPairs.ChunksExactly | json-c/json_tokener.c:533-631 | For cuts behind the first half of a pair: the chunks agree with the whole, for every beginning of the second chunk, if and only if the second chunk does not go on with the second half. |
| JsonChunks.InfinityCutMatters | json-c/json_tokener.c:666-712 | Where two chunks hide -Infinity, or make it up, they never end the way the whole input does, from any state that calls can lead to. |
| Utf8.OneForm | json-c/json_tokener.c:552-612 | By section 4 of RFC 3629, well-formed bytes are the number of one character, never that of a surrogate, and no other bytes are that number. |
| JsonUnicode.CodeRead | json-c/json_tokener.c:533-631 | One escape is read as the bytes that RFC 3629 gives the number of its digits, or U+FFFD if that is half of a pair; left out is only a first half with another escape behind it. |
| JsonUnicode.BrokenPair | json-c/json_tokener.c:566-589 | A first half with another escape behind it that is no second half is replaced by U+FFFD, and the other escape is read as if it came alone. |
| JsonUnicode.PairRead | json-c/json_tokener.c:533-631 | Whatever comes behind it, a pair of escapes is read as the UTF-8 of its character, by its number, if and only if the last 16 bits of that are not D800 to DFFF. Else it is replaced, or, if they are D800 to DBFF and another escape follows, joined with that. |
| JsonUnicode.SignWritingIsLost | json-c/json_tokener.c:566-589 | U+1D800, written as a pair with no escape behind it, is read as the replacement character. |
| JsonUnicode.SignWritingIsJoined | json-c/json_tokener.c:566-589 | With the escape of DC00 behind it, the three escapes are read as U+10000. |
| JsonUnicode.PairCutMatters | json-c/json_tokener.c:566-589 | Whatever comes behind them, two chunks cut between the halves of a pair read two replacement characters; the whole input gives one character or its replacement, but for the case in which PairRead joins it with a third escape. |
| JsonComments.BlockComment | json-c/json_tokener.c:424-475 | A block comment is skipped, up to its first end, if and only if an even number of stars is in front of that; else it goes on behind it. |
| JsonComments.NeverClosed | json-c/json_tokener.c:424-475 | Behind `/***/` the parser is still in the comment. |
| JsonComments.LineComment | json-c/json_tokener.c:451-466 | A line comment is skipped up to the end of its line. |
| BlobFormat.HeaderBytes | libubox/blob.c:35-41 | The first byte of a header is the flag and the number of the attribute; the other three are the length, the first counting most. |
| BlobFormat.EncodedHolds | libubox/blob.h:242-255 | Where an encoded attribute is in memory, the headers and blob_for_each_attr find the tree that was encoded, at every level. |
| Blob.BlobBuf.PutData | libubox/blob.c:158-169 | The attribute is added to the innermost open one, the buffer grown if need be, and nothing else in it changes. |
| Blob.BlobBuf.NestStart | libubox/blob.c:172-179 | Another attribute is open inside; the cookie leads back to the one around it, wherever the buffer moves. |
| Blob.BlobBuf.NestEnd | libubox/blob.c:182-188 | The innermost attribute is closed with its length right and counts in the one around it. |
| BlobTree.WriteTree | libubox/blob.c:158-188 | Any tree can be written by putting and nesting; the buffer then holds its encoding, and the walk finds that tree. |
| BlobTree.ReadBack | libubox/blob.h:242-255 | Of all trees of its shape, exactly the one that was written can be read back. |
| Blobmsg.AddField | libubox/blobmsg.c:305-320 | The field is added with its name, zeros and data; a name of 2^16 characters or more is cut short by the data, which is put where the cut length says. |
| Blobmsg.AddJsonElement | libubox/blobmsg_json.c:26-82 | A JSON value is added as its named attribute; what was added before a part that has no attribute stays. |
| BlobmsgRead.ElementBack | libubox/blobmsg_json.c:217-294 | The text that is written for an attribute made from a value is the text of that value, at every level of indentation. |
| BlobmsgRead.NumberText | libubox/blobmsg_json.c:240-258 | The bytes of an integer are written in decimal: 16 bits without a sign, 32 and 64 bits as the number with a sign that has these bits. |
| BlobmsgText.CharsAreString | libubox/blobmsg_json.c:159-213 | The escaped string keeps to section 7 of RFC 8259 and stands for the string. |
| BlobmsgText.TextRoundTrip | libubox/blobmsg_json.c:159-215 | json_tokener_parse of the text of a value gives the value, strings cut at a NUL and integers to 32 bits. |
| BlobmsgJson.Exchange | libubox/blobmsg_json.c:84-99 | An object that goes into a buffer, out of it as text and through the parser comes back the same, within strings without NUL and 32-bit numbers. |
| BlobmsgJson.StrBuf.FormatElement | libubox/blobmsg_json.c:217-271 | The writer appends the text of an attribute, whatever is in memory, and leaves its indentation as it was. |
| SafeWalk.ForEach | libubox/safe_list.c:62-81 | With callbacks that delete, add and walk at any depth: a walk stops only where a callback says so, and returns what it says; of the nodes that stay, it visits a beginning of the list, or all, in order; the log has exactly what the callbacks did, and never a visit to a node that is not in the list; other walks keep their places. |
| SafeWalk.VisitedOnce | libubox/safe_list.c:62-81 | A node that stays is visited exactly once by a walk that comes to its end. |
| WalkLog.DeletedNotSeen | libubox/safe_list.c:95-121 | In such a log, a node that was deleted is not visited again, by any walk, unless it was added again in between. |
| SafeList.List.Del | libubox/safe_list.c:95-121 | All iterators of the node go to the next one, chained in front of those it has, and all chains stay linked in both directions. |
| SafeList.List.SetWalker | libubox/safe_list.c:28-44 | The iterator is first in the chain of the node behind the given one. |
| RunQueue.ListsAreRight | libubox/runqueue.c:120-237 | In every run, with callbacks that call back at any depth: a task is in one list at most, in one exactly if it is queued, and the count of running tasks is right. |
| RunQueue.LoopKeepsLimit | libubox/runqueue.c:37-71 | Only the loop starts a waiting task, the first, and never beyond the limit. |
| RunQueueLaws.LoopEndsEmpty | libubox/runqueue.c:112-115 | In every run, the loop of runqueue_kill is left only when no task is active. |
| RunQueueLaws.KillEmpties | libubox/runqueue.c:108-118 | In every run, each task that was active at a call of runqueue_kill has left the queue at some time before its last line. |
| RunQueueLaws.TaskCalls | libubox/runqueue.c:120-236 | In every run: completing or killing a task takes it out of its list, keeps the others in order and calls its complete callback; cancelling does so to one that waits, and only marks one that runs, whose cancel callback is called. |
| RunQueueLaws.AddPlaces | libubox/runqueue.c:148-179 | In every run: an added task comes first or last in the list it belongs to, and the timer is set; nothing happens to a task that is queued or cannot run. |
| RunQueueLaws.FiringStarts | libubox/runqueue.c:37-71 | In every run: when the timer fires, the first waiting task is started if the limit is not reached; when nothing is left, the queue becomes empty and the timer tells so. |
| RunQueueLaws.LeavesByCallback | libubox/runqueue.c:217-236 | In every run, a task only leaves the queue with its complete callback called. |
| RunQueueLaws.WalkVisits | libubox/safe_list.c:62-81 | In every run, each task that is in the list when a walk over it begins is cancelled, or has left the list, before the walk is over. |
| RunQueueLaws.CancelsAll | libubox/runqueue.c:92-106 | In every run, each call that cancels the active or the waiting tasks cancels, or sees leave, every one of them. |
| RunQueueLaws.QuietEnds | libubox/runqueue.c:82-118 | Every run can go on, with callbacks that do nothing, until all calls have returned: no loop runs forever on its own. |
| RunQueue.LeftBehind | libubox/runqueue.c:82-118 | When runqueue_kill takes the timer away, exactly the tasks wait that callbacks added where its walk had already been, and that have waited since. |
| RunQueue.KillLeavesTimer | libubox/runqueue.c:108-118 | After runqueue_kill the timer is set for what can be started if and only if no such task waits, or nothing can be started. |
| RunQueue.StartIsDue | libubox/runqueue.c:148-179 | In every run without such an addition: whenever a task can be started and no callback is at work, the timer is set to start it. |
| RunQueue.KillCanStrand | libubox/runqueue.c:108-118 | A run in which a task can be started and nothing will. |
| RunQueue.Queue.AddTask | libubox/runqueue.c:148-179 | The queue changes as the transition system says. |
| Ustream.Stream.Read | libubox/ustream.c:342-359 | The caller gets the first bytes, as many as there are and fit; the rest stays, in order. |
| Ustream.Stream.Receive | libubox/ustream.c:283-322 | What a reader gets into the stream is a beginning of its data, appended; nothing only if no buffer has room. |
| Ustream.Stream.Write | libubox/ustream.c:437-459 | With nothing buffered the backend is offered the data first, and only then; what it has and what is buffered, together, grow by exactly the bytes reported as written, in order; -1 exactly if it fails. |
| Ustream.Stream.WritePending | libubox/ustream.c:369-407 | Bytes go from the buffers to the backend, the first buffer first: none is lost, doubled or out of order, whatever the backend accepts; something is left only if the last answer was less than what was offered, and a negative answer is a write error. |
| Ustream.Stream.Consume | libubox/ustream.c:211-236 | The first bytes are gone, across buffers, and the rest stays. |
| Ustream.BufList.PrepareBuf | libubox/ustream.c:143-281 | Moving data, going on to another buffer or allocating one never changes the contents; failure means that there is no room. |
| Base64.B64Encode | libubox/base64.c:137-197 | The encoding of section 4 of RFC 4648 with its NUL, or -1 exactly if it does not fit. |
| Base64.B64Decode | libubox/base64.c:199-327 | It succeeds exactly on encodings, blanks aside, of bytes that fit the target, and yields those. |
| Base64Count.B64DecodeCount | libubox/base64.c:199-327 | Without a target it gives the number of bytes for every text shaped like an encoding, bits left over or not, -1 exactly for all others, and None, a write through the null pointer, exactly if the count is less than targsize. |
| Base64Count.EncodedIsShaped | libubox/base64.c:199-327 | A text of that shape is an encoding if and only if no bits are left over. |
| Base64.FoldDigits | libubox/base64.c:199-327 | Collecting the digits of an encoding, bit by bit, gives the bytes and leaves nothing over. |
| Base64.EncodeInjective | libubox/base64.c:137-197 | Different bytes have different encodings. |
| Base64.SameBits | libubox/base64.c:137-197 | The digits are the bits of the bytes, with zeros to fill the last one: what section 4 of RFC 4648 defines. |
| Md5.DigestOf | libubox/md5.c:214-308 | However a message is split over calls, the result is the digest of the whole, as RFC 1321 defines it. |
| Md5.Context.Hash | libubox/md5.c:225-257 | The context holds all bytes so far: whole blocks in its words, the rest in its buffer, the count carried over 32 bits. |
| Md5.Context.End | libubox/md5.c:259-308 | The result is the digest of section 3 of RFC 1321, and nothing of the message is left in the context. |
| Md5Block.Rounds | libubox/md5.c:104-212 | The unrolled steps are the four rounds of section 3.4 of RFC 1321. |
| Md5Block.MacrosAreRfc | libubox/md5.c:66-70 | The shortened F and G and both orders of H are the functions of the standard. |
| EventScan.ReceiversAreRight | ubus/ubusd_event.c:108-186 | Each object with a matching pattern gets an event once, unless it belongs to the sender, and nobody else does. |
| EventScan.Events.SendEvent | ubus/ubusd_event.c:146-186 | The scan that stops at the first pattern out of reach reaches the same receivers as a scan of all. |
| BrokerLookup.HandleLookup | ubus/ubusd_proto.c:154-216 | With no path, a path or a beginning and a star: the objects wanted are sent in the order of their paths, all of them, or exactly those before the first that has no type, where it faults; not found exactly if none is wanted. |
| BrokerLookup.WhenLookupsFail | ubus/ubusd_proto.c:154-216 | No lookup can fault if and only if every object with a path has a type. |
| BrokerLookup.AddUntyped | ubus/ubusd_proto.c:137-216 | An accepted request with a path, no signature and no known type makes the next lookup of that path fault. |
| Broker.Broker.FreeObject | ubus/ubusd_obj.c:200-223 | The loops over subscriptions and patterns take out the object and all that names it, and each subscriber is told once. |
| Broker.Broker.FreeClient | ubus/ubusd_proto.c:468-478 | One object after the other goes, and the result is the graph without all of them and the client. |
| Broker.Broker.CreateObject | ubus/ubusd_obj.c:130-168 | The object is registered under its identifier, path, type and client; when the path or all identifiers are taken, everything is as before. |
| BrokerGraph.WithoutOk | ubus/ubusd_obj.c:200-223 | Taking out any set of objects keeps the whole graph consistent in both directions, reference counts included. |
| BrokerGraph.WithoutTwice | ubus/ubusd_proto.c:468-478 | Taking out objects in two steps is taking them out in one. |
| BrokerSteps.AddedOk | ubus/ubusd_obj.c:104-168 | Registering an object keeps the whole graph consistent. |
| BrokerSteps.AddedAndFreed | ubus/ubusd_obj.c:130-168 | An object that is freed right away leaves no trace, its new type included. |
| BrokerRuns.ChangeKeeps | ubus/ubusd_obj.c:104-223 | Every change of the graph that the broker makes keeps it consistent. |
| BrokerRuns.NumberStays | ubus/ubusd_id.c:53-71 | In every run an object that stays keeps its number, owner, path and type. |
| BrokerRuns.DeafForEver | ubus/ubusd_event.c:57-186 | So in every state of every run, such an object receives no event, whatever it is and whoever sends it. |
| BrokerRuns.NumberDecides | ubus/ubusd_event.c:57-75 | For an object that was just added, its owner's request for a pattern is refused if and only if the first free number that was read is one of the system. |
| BrokerProto.HandleAddObject | ubus/ubusd_proto.c:137-152 | The status, the new graph, and the one case in which the reply reads a type that is not there; the new object belongs to the client, under its path, with the known type of the given number, or a new one for the signature. |
| BrokerProto.HandleRemoveObject | ubus/ubusd_proto.c:110-135 | Only the owner removes an object; the type is reported exactly if it goes with it. |
| BrokerProto.HandleAddWatch | ubus/ubusd_proto.c:346-369 | Each refusal in the order of the code, the one case in which the notice has no receiver, and else: the object is subscribed to the target, and all others as before. |
| BrokerProto.HandleRemoveWatch | ubus/ubusd_proto.c:371-397 | The youngest subscription to the target ends, and nothing else. |
| BrokerProto.AllocEventPattern | ubus/ubusd_event.c:57-106 | For the owner only and not for objects of the system: afterwards the object receives an event exactly if it did before, or it is not of its own client and its text is the pattern, or begins with it up to a star; all others receive as before. An empty pattern faults exactly if the byte in front of it is a star. |
| BrokerProto.FreedReceive | ubus/ubusd_obj.c:200-223 | An object that is gone receives nothing, and all others receive as before. |
| BrokerProto.NothingLeft | ubus/ubusd_proto.c:468-478 | After a client is gone nothing names it, its objects, their paths, subscriptions or patterns. |
| BrokerProto.OthersStay | ubus/ubusd_proto.c:468-478 | The objects of others keep all but what bound them to it. |
| BrokerProto.SubscribedAndUnsubscribed | ubus/ubusd_obj.c:170-198 | A subscription that is taken back leaves no trace. |
| BrokerProto.ScanReady | ubus/ubusd_event.c:146-186 | The patterns of every consistent graph are sorted and lead to objects, as the scan for receivers needs them. |
| NotifyProtocol.DoneWhenAllAnswered | ubus/libubus-req.c:400-435 | In every run, with answers in any order: a notification is done exactly when the broker's status and a status of each listed subscriber, up to the sixteenth, have arrived. |
| NotifyProtocol.DoneInTheEnd | ubus/libubus-req.c:400-435 | If no answer is lost, it is done once nobody owes one and none is on the way. |
| NotifyProtocol.CallbackRunsOnce | ubus/libubus-req.c:87-108 | Its callback runs once, when it is done and no data callback is at work. |
| NotifyRequest.NotifyReq.ProcessStatus | ubus/libubus-req.c:374-435 | What a status message does to the bits and identifiers of a request is what the runs are about. |
| CallProtocol.ReturnedIsDone | java_ubus_example/com/sbell/ubus/UbusPoller.java:95-200 | In every run of callers and poller, remoteInvoke comes back only when no slot is left and the native context, if there was one, was released, once. |
| CallProtocol.SlotsAreRight | java_ubus_example/com/sbell/ubus/UbusPoller.java:280-304 | A slot holds an invoker that has this index and no other, and whose call is on its way. |
| CallProtocol.FetchedIsRight | java_ubus_example/com/sbell/ubus/UbusPoller.java:329-373 | A fetched index leads to the invoker whose call returned, cancellations in between notwithstanding. |
| CallProtocol.NobodyIsForgotten | java_ubus_example/com/sbell/ubus/UbusPoller.java:310-373 | As long as a call is not completed, the queue, the poller, the bus or the list of returns still has it. |
| CallProtocol.RunIsSafe | java_ubus_example/com/sbell/ubus/UbusPoller.java:22-92 | No invoker is run before it was started, and no call is started on a context in use. |
| CallProtocol.SlotTable.FindEmptyInvokeSlot | java_ubus_example/com/sbell/ubus/UbusPoller.java:285-304 | It finds the first empty slot from the last one on, going round, or -1 exactly if there is none. |

## Findings

Where the code does not do what its documentation or its other parts promise, the model keeps the code as it is, and the
exact condition is proved.

- `lh_table_resize` (json-c/linkhash.c:460-478) sets `size` to the size it was asked for. If the new table grows while it is
  filled, `size` is wrong: exactly if not all entries fit (LinkHash.LhTable.Resize). With more entries than `size`,
  a lookup misses a key (LinkHash.LhTable.SomeKeyIsLost; LinkHash.ResizeCanBreak shows a case). The growth in
  `lh_table_insert` never gets there.
- `runqueue_kill` (libubox/runqueue.c:108-118) cancels the timer after its walk, and a task that a cancel callback added
  where the walk had already been is never started: exactly the tasks of RunQueue.LeftBehind (RunQueue.KillCanStrand).
- `-Infinity` is read in two states, and the second goes on with the `st_pos` that the last literal or `\u` escape has left
  (json-c/json_tokener.c:353-385 and 685-692), so it is an error behind one of those: JsonRoundTrip.RoundTrip has the exact
  condition, JsonRoundTrip.NegativeIsLost a value.
- A chunk that ends in "-" and one that begins with "Infinity" give an error, although the whole is a number
  (json-c/json_tokener.c:666-712, where `case_len` counts this chunk only): JsonChunks.InfinityCutMatters.
- A chunk that ends between the halves of a pair of escapes, or within the second, loses the character
  (json-c/json_tokener.c:533-631): exactly if the next chunk goes on with the second half (JsonPairs.ChunksExactly).
- The check behind a pair of escapes looks at the last 16 bits of its character only (json-c/json_tokener.c:566-610). If they
  look like a surrogate, the character is lost: replaced, or, if they look like a high one and another escape follows, joined
  with it to another character. JsonUnicode.PairRead has the exact condition; U+1D800 is such a character
  (JsonUnicode.SignWritingIsLost, SignWritingIsJoined).
- `ubus_alloc_id` (ubus/ubusd_id.c:53-71) means to skip the numbers of the system, but its `continue` goes to the insertion, so
  they can be handed out. An object that gets one can never receive an event, as its owner may not register patterns for it
  (BrokerRuns.NumberStays, DeafForEver): exactly if the first free number that is read is below 1024 (BrokerRuns.NumberDecides).
- `ubusd_send_obj` (ubus/ubusd_proto.c:154-172) reads the type of every object it sends, and an object can have a path and no
  type. A lookup faults exactly if it wants such an object, behind those it has sent (BrokerLookup.HandleLookup,
  WhenLookupsFail, AddUntyped).
- For an empty pattern `ubusd_alloc_event_pattern` (ubus/ubusd_event.c:57-106) reads the byte in front of it, and writes behind
  its allocation if that is a star: the outcome Fault of BrokerProto.AllocEventPattern.
- Without a target, `b64_decode` (libubox/base64.c:322-326) still writes its NUL if the count is less than the size that it is
  given: Base64Count.B64DecodeCount.
- A request to add an object with a signature that gets no type makes the reply read the identifier of that type
  (ubus/ubusd_proto.c:137-152): the outcome Fault of BrokerProto.HandleAddObject.
- A subscription to an object of the system makes the notice of the first subscriber go to a client that is not there
  (ubus/ubusd_proto.c:480-495): the outcome Fault of BrokerProto.HandleAddWatch, and BrokerProto.SystemUnwatched.
- A block comment ends at a slash behind an odd number of stars (json-c/json_tokener.c:436-475, where a star behind a star leads
  back into the comment), so `/***/` does not end one: JsonComments.BlockComment has the exact condition, NeverClosed the text.
- A NUL is among the hexadecimal digits, since `strchr` finds the end of its string (json-c/json_tokener.c:533-631).

## Left out

- libubox/uloop.c, usock.c, ulog.c, jshn.c, json_script.c, kvlist.c, vlist.c, json-c/arraylist.c and the command line tools: event
  loops, sockets and thin layers over what is modelled.
- AvlTree.Tree.Insert: the comparator is a total preorder on keys and reads nothing else; its context pointer is left out.
- LinkHash.LhTable.Insert: pointers to entries are indices, the hash function is arbitrary, and the load factor 0.66 is
  66/100, which differs from the floating point only at sizes that are multiples of 50, never from 16 by doubling.
- JsonRoundTrip.RoundTrip: a double is the text that the parser keeps with it; strtod and the formatting of doubles without a
  text are left out, and so are values an application gave its own serializer.
- JsonParser.Tokener.ParseEx: the locale, and running out of memory; integers have 64 bits with saturation, as in the code.
- JsonAccepts.EveryTextIsRead: where RFC 8259 leaves the value open it is that of json-c: integers end at 64 bits, of equal keys
  the last value counts, a key ends before a NUL. Bytes outside escapes are copied as they are, well-formed or not. What is no
  JSON text is not always refused, and no exact condition for that is proved.
- JsonPairs.ChunksExactly: a cut behind "\ud800\u" leaves `st_pos` at 4, and the next digit is shifted by a negative amount
  (json-c/json_tokener.c:541), which C leaves undefined; here it is not shifted.
- Blob.BlobBuf.PutData: lengths from 2^24 on are excluded, the code cuts them silently; running out of memory is left out.
- Blobmsg.AddJsonElement: names of 2^16 and more characters, in the value or its own, are excluded: the code puts the data where
  the cut length says, over the end of the name (Blobmsg.AddField has them). The buffers for strings and printf, blob_parse
  and blobmsg_parse are left out.
- BlobmsgJson.StrBuf.FormatElement: how the text buffer grows, and the callback for elements; blobmsg_check_attr of a string
  with a negative length is taken to fail.
- SafeWalk.ForEach: the links of list.h are a sequence, and callbacks are scripts of deletions, additions and walks; calls that
  would break any list, like adding a node twice, are not made.
- RunQueue.ListsAreRight: timeouts of single tasks and runqueue_process are left out, and the limit is constant in a run.
- Ustream.Stream.Write: notifications, timers, string_data and read_blocked by the user are left out; what the backend
  accepts is arbitrary.
- Ustream.Stream.Consume: consuming more than there is aborts in the code, and is excluded; the same holds for FillRead.
- Md5Block.Rounds: that the table of constants is that of the sine function is not proved; the values are those of the code.
- Md5.DigestOf: size_t has 64 bits; reading the file in md5sum is left out.
- EventScan.Events.SendEvent: counters do not overflow, except for the 16-bit sequence number.
- BrokerLookup.HandleLookup: the tree of paths is the list of paths in order, and avl_find_ge_element the first that is not less;
  the byte in front of the string, which the code reads if it is empty, is a parameter. What a message about an object holds
  is left out.
- Broker.Broker.FreeObject: structs are records in a store, by address; reaching for one that was freed would be an error in
  the proof. Methods of types and the order in which bytes leave the broker are left out.
- Broker.Broker.CreateObject: the random device is a sequence of numbers.
- BrokerProto.AllocEventPattern: the byte in front of the pattern, which the code reads if it is empty, is a parameter.
- BrokerRuns.DeafForEver: a run is of changes that the handlers make; objects of the broker itself register no patterns in it.
- BrokerProto.HandleRemoveWatch: invoke, notify and response messages only pass through the broker and are left out.
- NotifyProtocol.DoneWhenAllAnswered: one notification at a time; timeouts and file descriptors are left out, and no
  subscriber answers more often than it was asked.
- CallProtocol.ReturnedIsDone: plain calls only; adding objects, answering requests and interrupted threads are left out. A
  timeout or a notify may wake a caller at any time, and the bus may complete a call at any time.
