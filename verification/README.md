# MAPI codec, containers and connection brokers

A Dafny model of three groups of code, with proofs of what they keep and promise.

**The binary codec** (`ext_pack.c`). `MapiTypes` holds the values: restrictions, tagged
property values, rule actions, which contain one another. `Wire` says what bytes a value is
written as, `Parse` what a reader makes of arbitrary bytes, and `RoundTrip`, `SizeBound`,
`Exact` and `CodecLaws` relate the two. `PropNames` does the same for property names. `Layout`
and `Reading` fix both against the format itself: which literal byte means what, at which
position every field stands, and what each literal type and opcode is read as. The classes
`PushContext.PushCtx` and `PullContext.PullCtx` are the contexts of the source, an offset over
a growing buffer and a cursor over received bytes, updated in place; each of their methods is
proved equal to `Wire` or `Parse`, so that the laws hold of the code's own loops,
reallocations and back-patches.

**The containers.** `DoubleLists` has the circular lists, node by node, against a ghost
sequence. `LibBuffers` has the pool byte by byte: item, link word, item, link word in one
block, with the free chain threaded through the block. `IntHashes` has the hash table whose
items sit in a bucket list and in the insertion-order list at once, and `HashIters` its
iterator, with removal during a traversal.

**The brokers.** `LockBroker` has the threads of `alock` as a state machine, one step per
critical section or read, together with the service behind it, `locker`, one step per line it
handles; a run is a sequence of labels that decide what the code does not: scheduling,
arrivals, clocks. `LockSteps` says of each kind of step what it does and that it does nothing
else. `LockInvariant` and `LockSafety` prove what holds in all runs, and exactly
when lock safety does. `LockLeak` says when one exchange can leave a granted lock behind,
`LockNames` and `LockQuits` which names can do so in the long run, and `LockSplit` has two such
runs from the start. `LineReader` and `LockScan` have `read_line` and the scanner's rotation as
loops in place. `Relay` has `transfer_response` of `amidb`, with its buffer and flush.
`MidbPool` has its pools and routing together with `midb`, one step per command it handles;
`MidbSteps` says what each kind of step does; `MidbReplies` proves exactly when every client gets the reply to its own command, `MidbShift`
what happens to all later clients otherwise, and `MidbAstray` has two runs in which a command
or a reply goes astray. `Texts` has C strings and lines, `Pools` what the two brokers share,
`Options` the optional value.

## Reading the model

- A push fails where `erealloc` would: the model's buffers have a size limit, a multiple of
  4096 below 2 GiB, so that the source's 32-bit sums do not wrap.
- `float` and `double` are four and eight opaque bytes. Strings are byte strings without NUL.
- Values that no C structure can hold, such as a tag whose value has another kind or a list
  longer than its count field, are not well formed and the model's push refuses them.
- An action block's length field is ignored by push, except that it fixes the size of a
  deferred payload; a round trip sets it to the size that was patched in.
- A hash item's fields live in an object of their own that records which pool slot it stands
  for; that slot is taken and returned in step with the item.
- `HashIters.Traverse` is the loop that the comment above `int_hash_iter_begin` recommends,
  with an optional removal. The comment promises a full pass; the code does not reset the
  position counter, so a second pass with the same iterator stops early. The theorem says by
  how much.
- `double_list_append_list` empties the source's head pointer but not its node count. The
  source is a proper list afterwards when it was empty before, or when the destination was:
  then it still has all its nodes, and shares them with the destination.
- The pull of a property name sets the cursor to the declared end of the name without
  checking it against the data. The model follows the code and states when it is in bounds.
- The brokers look for CRLF only at the end of what they have read, so that several commands
  in one packet are one line to them; the services behind them (`locker`, `midb`) divide at
  every CRLF. A session or a connection in the model keeps that apart: a line is what a broker
  reads, and what it writes reaches the service as the lines it divides into.
- `locker` and `midb` handle at most one line per read; the model lets them handle a line they
  have been sent at any later time. A lock is given up at UNLOCK, at QUIT, after the lock time, when the locker
  hangs up (its reads time out, its table stays full) and when the broker closes the socket.
- A client whose backend fails, or who waits a full interval in the queue, is told TRUE without
  a lock; the model does as the code does.
- `transfer_response` stores a NUL one byte behind a full buffer. The model's buffer has one
  more cell for it.
- Each byte that `midb` writes carries the line or the PING that it replies to, so that "its own
  reply" can be said of what a client gets. What a command's handler writes is arbitrary text.
- `atoi` is an arbitrary function. `write` is taken to write all its bytes.

## Model

| member | source | states |
|---|---|---|
| `RoundTrip.RestrictionRoundTrip` | AGENT_SERVICE/php_mapi/ext_pack.c:1832-1865 | For every well-formed restriction and any trailing bytes, pulling its encoding gives the restriction back (length fields of nested action blocks set to what push writes) and leaves exactly the trailing bytes. |
| `RoundTrip.TaggedRoundTrip` | AGENT_SERVICE/php_mapi/ext_pack.c:2067-2074 | The same for tagged property values, by simultaneous induction with restrictions and rule actions. |
| `RoundTrip.TaggedsRoundTrip` | AGENT_SERVICE/php_mapi/ext_pack.c:1798-1821 | The same for the value list of a comment restriction or a recipient. |
| `RoundTrip.ValueRoundTrip` | AGENT_SERVICE/php_mapi/ext_pack.c:2015-2065 | The same for a property value pulled by the type it was pushed with, all scalar, array, restriction and rule-action kinds. |
| `RoundTrip.RuleRoundTrip` | AGENT_SERVICE/php_mapi/ext_pack.c:1996-2013 | The same for rule actions behind their 16-bit count. |
| `RoundTrip.ActionRoundTrip` | AGENT_SERVICE/php_mapi/ext_pack.c:1926-1994 | The same for one action block; only its length field may change, to the size that was patched in. |
| `RoundTrip.CountedRoundTrip` | AGENT_SERVICE/php_mapi/ext_pack.c:1595-1699 | An array behind its 32-bit count comes back element by element for any element codec that round-trips. |
| `RoundTrip.GuidRoundTrip` | AGENT_SERVICE/php_mapi/ext_pack.c:1549-1564 | A GUID, pushed field by field, comes back. |
| `RoundTrip.StringRoundTrip` | AGENT_SERVICE/php_mapi/ext_pack.c:1566-1569 | A NUL-free string comes back and the cursor is past its NUL. |
| `RoundTrip.BinaryRoundTrip` | AGENT_SERVICE/php_mapi/ext_pack.c:1538-1547 | A binary below 4 GiB comes back. |
| `RoundTrip.NormRestriction` | AGENT_SERVICE/php_mapi/ext_pack.c:1926-1994 | What a round trip makes of a restriction has the same encoding as the restriction. |
| `CodecLaws.PropvalsArePrefixFree` | AGENT_SERVICE/php_mapi/ext_pack.c:2015-2074 | Two encodings that agree up to trailing bytes are equal and encode the same value: a reader can tell where a tagged value ends. |
| `CodecLaws.RestrictionsArePrefixFree` | AGENT_SERVICE/php_mapi/ext_pack.c:1832-1865 | The same for restrictions. |
| `CodecLaws.RuleActionsArePrefixFree` | AGENT_SERVICE/php_mapi/ext_pack.c:1996-2013 | The same for rule actions. |
| `CodecLaws.ReencodingIsStable` | AGENT_SERVICE/php_mapi/ext_pack.c:800-921 | For arbitrary bytes: if a tagged value can be pulled, pushing it succeeds and writes as many bytes as were read, pulling those gives the same value up to action-block lengths, and a further round changes nothing. |
| `CodecLaws.ReencodingIsExact` | AGENT_SERVICE/php_mapi/ext_pack.c:800-921 | For arbitrary bytes from which a tagged value can be pulled: pushing it gives the very bytes back exactly when two things in the input, that pull does not look at, are as push writes them: every presence byte of a comment restriction is 0 or 1, and every length field of an action block that is not deferred counts the bytes behind it, modulo 65536. |
| `CodecLaws.RestrictionReencodingIsExact` | AGENT_SERVICE/php_mapi/ext_pack.c:567-646 | The same for restrictions. |
| `CodecLaws.RuleReencodingIsExact` | AGENT_SERVICE/php_mapi/ext_pack.c:778-798 | The same for rule actions. |
| `Exact.ActionExact` | AGENT_SERVICE/php_mapi/ext_pack.c:712-776 | For one action block, inside the simultaneous induction over the input that proves the three: what follows it is the end of the input, the re-encoding has the size consumed, and it gives the bytes back exactly when the length field and the data are as push writes them. |
| `Exact.OptionalExact` | AGENT_SERVICE/php_mapi/ext_pack.c:540-553 | The same for the presence byte and the restriction behind it. |
| `Exact.ValueExact` | AGENT_SERVICE/php_mapi/ext_pack.c:800-913 | The same for values; every scalar and array comes back whatever its bytes are. |
| `CodecLaws.PresentFlagIsRewritten` | AGENT_SERVICE/php_mapi/ext_pack.c:523-556 | A comment restriction with any presence byte but 0 is pulled as if the byte were 1, and pushed with a 1, so that the bytes come back exactly when it was 1. |
| `CodecLaws.OddFlagIsRewritten` | AGENT_SERVICE/php_mapi/ext_pack.c:523-556 | Nine bytes that do not come back: presence byte 2 is pulled, and pushed as 1. |
| `CodecLaws.ActionLengthIsRewritten` | AGENT_SERVICE/php_mapi/ext_pack.c:712-776 | Whatever the length field of an action block that is not deferred, pull takes the block and keeps that length, and push writes the count of the bytes behind it, so that the bytes come back exactly when the field held that count. |
| `CodecLaws.ShortActionIsRewritten` | AGENT_SERVICE/php_mapi/ext_pack.c:712-776 | Eleven bytes that do not come back: a block without data and length 5 is pulled, and pushed with length 9. |
| `SizeBound.PullBuildsNoMoreThanItReads` | AGENT_SERVICE/php_mapi/ext_pack.c:567-646 | On arbitrary bytes a successful pull of a restriction, tagged value or rule actions has consumed at least one byte, stayed inside the data, and built no more tree nodes and array elements than the bytes it consumed; the mutually recursive pulls terminate. |
| `SizeBound.PartsWeigh` | AGENT_SERVICE/php_mapi/ext_pack.c:1832-1865 | Nothing is left out of that count: a restriction outweighs each of its parts, and every part counts. |
| `SizeBound.ElementsWeigh` | AGENT_SERVICE/php_mapi/ext_pack.c:2015-2065 | Nor are elements of arrays and bytes of strings and binaries. |
| `SizeBound.WeighRestriction` | AGENT_SERVICE/php_mapi/ext_pack.c:1832-1865 | A restriction has at least one node and never more nodes and elements than its encoding has bytes. |
| `Parse.DecRestriction` | AGENT_SERVICE/php_mapi/ext_pack.c:567-646 | Whatever is pulled is well formed, and its encoding is exactly as long as the bytes consumed. |
| `Parse.DecTagged` | AGENT_SERVICE/php_mapi/ext_pack.c:915-921 | The same for tagged values. |
| `Parse.DecValue` | AGENT_SERVICE/php_mapi/ext_pack.c:800-913 | The same for values, which moreover have the kind that was asked for. |
| `Parse.DecRuleActions` | AGENT_SERVICE/php_mapi/ext_pack.c:778-798 | The same for rule actions; a zero count fails. |
| `Parse.DecAction` | AGENT_SERVICE/php_mapi/ext_pack.c:712-776 | The same for an action block; the deferred payload has length minus nine bytes, in 16-bit arithmetic. |
| `Parse.DecCountedSound` | AGENT_SERVICE/php_mapi/ext_pack.c:257-416 | The same for counted arrays over any element codec with that property. |
| `PropNames.NameRoundTrip` | AGENT_SERVICE/php_mapi/ext_pack.c:2092-2126 | A property name with a numeric id comes back with the cursor where the writer stopped; a named one does so exactly when the name has 1 to 254 characters, and fails otherwise. |
| `PropNames.NamesRoundTrip` | AGENT_SERVICE/php_mapi/ext_pack.c:2128-2142 | An array of such names, behind its 16-bit count, comes back whole and the cursor ends where the writer ended. |
| `PropNames.EntriesRoundTrip` | AGENT_SERVICE/php_mapi/ext_pack.c:2128-2142 | The entries of the array come back one by one, each where the one before it ended. |
| `PropNames.LongNameSpoilsArray` | AGENT_SERVICE/php_mapi/ext_pack.c:986-1007 | One name outside 1 to 254 characters makes the pull of the whole counted array fail. |
| `PropNames.CursorInBounds` | AGENT_SERVICE/php_mapi/ext_pack.c:946-984 | After a successful pull of a name the cursor is inside the data exactly when the declared name size is. |
| `Layout.LittleEndian` | AGENT_SERVICE/php_mapi/ext_pack.c:1477-1516 | Every pushed number has its lowest byte first: the bytes, weighted 1, 0x100, 0x1_0000, 0x100_0000, add up to it; of a 64-bit number the low half comes first. |
| `Layout.FirstByte` | AGENT_SERVICE/php_mapi/types.h:164-176 | The first byte of a restriction's encoding is 0x00 exactly for AND, 0x01 for OR, 0x02 for NOT, 0x03 for content, 0x04 for property, 0x05 for property comparison, 0x06 for bitmask, 0x07 for size, 0x08 for exist, 0x09 for sub-object, 0x0a for comment, 0x0b for count, 0xff for the null restriction. |
| `Layout.AndOrLayout` | AGENT_SERVICE/php_mapi/ext_pack.c:1701-1715 | AND and OR: the 32-bit count at position 1, the parts from position 5. |
| `Layout.NotLayout` | AGENT_SERVICE/php_mapi/ext_pack.c:1717-1721 | NOT: its restriction from position 1. |
| `Layout.ContentLayout` | AGENT_SERVICE/php_mapi/ext_pack.c:1723-1733 | Content: fuzzy level at 1, property tag at 5, tagged value from 9. |
| `Layout.PropertyLayout` | AGENT_SERVICE/php_mapi/ext_pack.c:1735-1745 | Property: operator at 1, property tag at 2, tagged value from 6. |
| `Layout.FlatLayout` | AGENT_SERVICE/php_mapi/ext_pack.c:1747-1781 | Comparison, bitmask and size: ten bytes, operator at 1, first tag at 2, second tag, mask or size at 6. |
| `Layout.ExistLayout` | AGENT_SERVICE/php_mapi/ext_pack.c:1783-1787 | Exist: five bytes, property tag at 1. |
| `Layout.NumberedLayout` | AGENT_SERVICE/php_mapi/ext_pack.c:1789-1796 | Sub-object and count: the number at 1, the restriction from 5. |
| `Layout.CommentLayout` | AGENT_SERVICE/php_mapi/ext_pack.c:1798-1821 | Comment: the one-byte count at 1, the values from 2, then a byte 0, or a byte 1 and the restriction. |
| `Layout.RestrictionsInOrder` | AGENT_SERVICE/php_mapi/ext_pack.c:1708-1713 | Each part of an AND or OR stands behind the parts before it and in front of those after it. |
| `Layout.TaggedsInOrder` | AGENT_SERVICE/php_mapi/ext_pack.c:1808-1812 | The same for the values of a comment or a recipient. |
| `Layout.ActionsInOrder` | AGENT_SERVICE/php_mapi/ext_pack.c:2007-2011 | The same for the blocks of rule actions. |
| `Layout.RecipientsInOrder` | AGENT_SERVICE/php_mapi/ext_pack.c:1918-1922 | The same for the recipients of a forward action. |
| `Layout.NamesInOrder` | AGENT_SERVICE/php_mapi/ext_pack.c:2136-2140 | The same for the names of an array. |
| `Layout.ElementsInOrder` | AGENT_SERVICE/php_mapi/ext_pack.c:1595-1699 | The same for the elements of the value arrays. |
| `Layout.GuidLayout` | AGENT_SERVICE/php_mapi/ext_pack.c:1549-1564 | A GUID: sixteen bytes, time_low at 0, time_mid at 4, time_hi_and_version at 6, each lowest byte first, clock_seq at 8, node at 10. |
| `Layout.TaggedLayout` | AGENT_SERVICE/php_mapi/ext_pack.c:2067-2074 | A tagged value: the tag at 0, the value from 4. |
| `Layout.ScalarLayout` | AGENT_SERVICE/php_mapi/ext_pack.c:2015-2050 | The bytes of each scalar, string, binary and nested value. |
| `Layout.NumberArrayLayout` | AGENT_SERVICE/php_mapi/ext_pack.c:1595-1638 | Arrays of numbers: the count at 0, element i at 4 + 2i, 4 + 4i or 4 + 8i. |
| `Layout.BlobArrayLayout` | AGENT_SERVICE/php_mapi/ext_pack.c:1640-1699 | Arrays of strings, GUIDs and binaries: the count at 0, the elements from 4. |
| `Layout.BinaryLayout` | AGENT_SERVICE/php_mapi/ext_pack.c:1538-1547 | A binary: its size at 0, its bytes from 4. |
| `Layout.ActionLayout` | AGENT_SERVICE/php_mapi/ext_pack.c:1926-1994 | An action block: the number of bytes behind it, modulo 65536, at 0, opcode at 2, flavor at 3, flags at 7, data from 11. |
| `Layout.MoveCopyLayout` | AGENT_SERVICE/php_mapi/ext_pack.c:1867-1874 | Move and copy: two binaries, each behind its size. |
| `Layout.ReplyLayout` | AGENT_SERVICE/php_mapi/ext_pack.c:1876-1883 | Reply: a binary behind its size, then the GUID. |
| `Layout.DataLayout` | AGENT_SERVICE/php_mapi/ext_pack.c:1957-1990 | The data of the other actions; a forward action has its 16-bit count at 0. |
| `Layout.RecipientLayout` | AGENT_SERVICE/php_mapi/ext_pack.c:1885-1905 | A recipient: the reserved byte at 0, the 16-bit count at 1, the values from 3. |
| `Layout.RuleLayout` | AGENT_SERVICE/php_mapi/ext_pack.c:1996-2013 | Rule actions: the 16-bit count at 0, the blocks from 2. |
| `Layout.NameLayout` | AGENT_SERVICE/php_mapi/ext_pack.c:2092-2126 | A property name: the kind at 0, the GUID at 1, the id at 17 (21 bytes), or the size byte at 17 and the name from 18 with its NUL. |
| `Layout.NameArrayLayout` | AGENT_SERVICE/php_mapi/ext_pack.c:2128-2142 | An array of names: the 16-bit count at 0, the names from 2. |
| `Reading.KindIsTheFirstByte` | AGENT_SERVICE/php_mapi/ext_pack.c:567-646 | On arbitrary bytes: what is pulled is an AND exactly when the first byte is 0x00, an OR when it is 0x01, and so on for the thirteen types; any other first byte fails. |
| `Reading.AndOrIsRead` | AGENT_SERVICE/php_mapi/ext_pack.c:418-440 | The count is read from position 1, the parts from position 5; fewer than five bytes fail. |
| `Reading.ContentIsRead` | AGENT_SERVICE/php_mapi/ext_pack.c:448-458 | Fuzzy level, tag and value are read from positions 1, 5 and 9. |
| `Reading.PropertyIsRead` | AGENT_SERVICE/php_mapi/ext_pack.c:460-470 | Operator, tag and value are read from positions 1, 2 and 6. |
| `Reading.FlatIsRead` | AGENT_SERVICE/php_mapi/ext_pack.c:472-506 | Comparison, bitmask and size: operator at 1, tag at 2, the other number at 6; fewer than ten bytes fail. |
| `Reading.NumberedIsRead` | AGENT_SERVICE/php_mapi/ext_pack.c:514-565 | Sub-object and count: the number at 1, the restriction from 5. |
| `Reading.CommentIsRead` | AGENT_SERVICE/php_mapi/ext_pack.c:523-556 | No values, or no byte behind them, fails; behind them 0 ends the comment and any other byte is followed by a restriction. |
| `Reading.GuidIsRead` | AGENT_SERVICE/php_mapi/ext_pack.c:167-182 | Sixteen bytes are needed, and each field is the sum of its own bytes. |
| `Reading.StringIsRead` | AGENT_SERVICE/php_mapi/ext_pack.c:184-202 | A string is what stands before the first NUL; without one the pull fails. |
| `Reading.BinaryIsRead` | AGENT_SERVICE/php_mapi/ext_pack.c:241-255 | The size at 0 and so many bytes from 4; with fewer the pull fails. |
| `Reading.NumbersAreRead` | AGENT_SERVICE/php_mapi/types.h:77-88 | For each literal type of a number, with and without the 0x3000 bits: which kind of value it is read as, from which bytes, and how many it takes (0x0002 two, 0x0003, 0x000a and 0x0004 four, 0x0005, 0x0007, 0x0014 and 0x0040 eight, 0x000b one); with fewer it fails. |
| `Reading.ValuesAreRead` | AGENT_SERVICE/php_mapi/types.h:86-92 | The same for the types 0x001e and 0x001f (strings), 0x0048 (GUID), 0x00fd (restriction), 0x00fe (rule actions) and 0x0102 (binary). |
| `Reading.ArraysAreRead` | AGENT_SERVICE/php_mapi/types.h:93-99 | The types 0x1002, 0x1003, 0x1014, 0x101e, 0x101f, 0x1048 and 0x1102 are counted arrays of shorts, longs, 64-bit numbers, strings, GUIDs and binaries. |
| `Reading.OtherTypesFail` | AGENT_SERVICE/php_mapi/ext_pack.c:800-913 | Every other type fails, multi-value instances of array types too. |
| `Reading.TypesForValues` | AGENT_SERVICE/php_mapi/ext_pack.c:2015-2065 | A push takes a tagged value exactly when its type is one of those in the same table for the value's kind, and the value itself can be pushed. |
| `Reading.BinaryActionsAreRead` | AGENT_SERVICE/php_mapi/types.h:272-275 | Opcodes 1 and 2 are followed by two binaries, 3 and 4 by a binary and a GUID. |
| `Reading.DeferIsRead` | AGENT_SERVICE/php_mapi/types.h:276 | Opcode 5: the payload has nine bytes less than the length field says; lengths below nine wrap to 65527 more. |
| `Reading.OtherActionsAreRead` | AGENT_SERVICE/php_mapi/types.h:277-282 | Opcode 6 is followed by a 32-bit code, 7 and 8 by a 16-bit count, not 0, and the recipients, 9 by a tagged value, 10 and 11 by nothing; every other opcode fails, and so do fewer than eleven bytes. |
| `Reading.OpcodesForData` | AGENT_SERVICE/php_mapi/ext_pack.c:1926-1994 | A push takes an action block exactly when its opcode is one of those in the same table for its data, which can be pushed. |
| `Reading.RecipientIsRead` | AGENT_SERVICE/php_mapi/ext_pack.c:664-687 | The reserved byte at 0, the count at 1, which must not be 0, the values from 3. |
| `Reading.NameIsRead` | AGENT_SERVICE/php_mapi/ext_pack.c:946-984 | Kind 0 has its id at 17; kind 1 has a size of at least 2 at 17 and a NUL-terminated name from 18 that fits it; other kinds have neither. |
| `Reading.NamesAreCounted` | AGENT_SERVICE/php_mapi/ext_pack.c:986-1007 | The 16-bit count at 0, the names from 2. |
| `PushContext.PushCtx.CheckOverflow` | AGENT_SERVICE/php_mapi/ext_pack.c:1427-1446 | Growth in blocks of 4096: succeeds exactly when the needed size is within the memory limit, makes room for it, and keeps all earlier bytes. |
| `PushContext.PushCtx.Advance` | AGENT_SERVICE/php_mapi/ext_pack.c:1448-1455 | Reserves bytes, keeping what is written. |
| `PushContext.PushCtx.PushBytes` | AGENT_SERVICE/php_mapi/ext_pack.c:1457-1465 | Appends exactly the given bytes, or fails because they do not fit; earlier bytes never change, and nothing behind the written bytes changes unless the buffer moved. |
| `PushContext.PushCtx.PushUint16` | AGENT_SERVICE/php_mapi/ext_pack.c:1477-1485 | Appends the two little-endian bytes. |
| `PushContext.PushCtx.PushUint32` | AGENT_SERVICE/php_mapi/ext_pack.c:1487-1495 | Appends the four little-endian bytes. |
| `PushContext.PushCtx.PushUint64` | AGENT_SERVICE/php_mapi/ext_pack.c:1507-1516 | Appends the eight little-endian bytes. |
| `PushContext.PushCtx.PushGuid` | AGENT_SERVICE/php_mapi/ext_pack.c:1549-1564 | Appends the GUID's sixteen bytes field by field. |
| `PushContext.PushCtx.PushBinary` | AGENT_SERVICE/php_mapi/ext_pack.c:1538-1547 | Appends count and bytes. |
| `PushContext.PushCtx.PushLongArray` | AGENT_SERVICE/php_mapi/ext_pack.c:1610-1623 | Appends count and elements, by a loop. |
| `PushContext.PushCtx.PushStringArray` | AGENT_SERVICE/php_mapi/ext_pack.c:1655-1668 | Appends count and NUL-terminated strings, by a loop. |
| `PushContext.PushCtx.PushBinaryArray` | AGENT_SERVICE/php_mapi/ext_pack.c:1640-1653 | Appends count and counted binaries, by a loop. |
| `PushContext.PushCtx.PushRestriction` | AGENT_SERVICE/php_mapi/ext_pack.c:1832-1865 | Succeeds exactly on a well-formed restriction that fits the memory limit, and then appends exactly its encoding, whatever reallocations happen on the way. |
| `PushContext.PushCtx.PushComment` | AGENT_SERVICE/php_mapi/ext_pack.c:1798-1821 | The same for comment restrictions; an empty or too long value list fails. |
| `PushContext.PushCtx.PushTagged` | AGENT_SERVICE/php_mapi/ext_pack.c:2067-2074 | The same for tagged values. |
| `PushContext.PushCtx.PushValue` | AGENT_SERVICE/php_mapi/ext_pack.c:2015-2065 | The same for values. |
| `PushContext.PushCtx.PushAction` | AGENT_SERVICE/php_mapi/ext_pack.c:1926-1994 | Back-patching is exact: the reserved two bytes end up holding the count of the bytes after them modulo 65536, earlier bytes are unchanged, the rest is the action's own encoding. |
| `PushContext.PushCtx.PushRuleActions` | AGENT_SERVICE/php_mapi/ext_pack.c:1996-2013 | The same for the counted list of action blocks. |
| `PushContext.PushCtx.PushPropertyName` | AGENT_SERVICE/php_mapi/ext_pack.c:2092-2126 | Appends the encoding of a property name, the size byte of a name patched in last, modulo 256. |
| `PushContext.PushCtx.PushPropNames` | AGENT_SERVICE/php_mapi/ext_pack.c:2128-2142 | Appends the counted array of names. |
| `PushContext.PatchedContents` | AGENT_SERVICE/php_mapi/ext_pack.c:1982-1993 | Overwriting a reserved hole with a field of the same size turns the bytes before, hole and rest into before, field and rest. |
| `PullContext.PullCtx.PullUint32` | AGENT_SERVICE/php_mapi/ext_pack.c:101-110 | Agrees with the functional reader on the unread bytes, result and new cursor, for every input. |
| `PullContext.PullCtx.PullString` | AGENT_SERVICE/php_mapi/ext_pack.c:184-202 | The same: the string ends at the first NUL inside the data, and fails without one. |
| `PullContext.PullCtx.PullBinary` | AGENT_SERVICE/php_mapi/ext_pack.c:241-255 | The same for binaries. |
| `PullContext.PullCtx.PullGuid` | AGENT_SERVICE/php_mapi/ext_pack.c:167-182 | The same for GUIDs. |
| `PullContext.PullCtx.PullLongArray` | AGENT_SERVICE/php_mapi/ext_pack.c:280-301 | The same for a counted array, by a loop. |
| `PullContext.PullCtx.PullStringArray` | AGENT_SERVICE/php_mapi/ext_pack.c:349-370 | The same for string arrays. |
| `PullContext.PullCtx.PullRestriction` | AGENT_SERVICE/php_mapi/ext_pack.c:567-646 | The same for restrictions: on arbitrary bytes success, value and cursor are those of the functional reader that the laws above are about. |
| `PullContext.PullCtx.PullComment` | AGENT_SERVICE/php_mapi/ext_pack.c:523-556 | The same for comment restrictions. |
| `PullContext.PullCtx.PullTagged` | AGENT_SERVICE/php_mapi/ext_pack.c:915-921 | The same for tagged values. |
| `PullContext.PullCtx.PullValue` | AGENT_SERVICE/php_mapi/ext_pack.c:800-913 | The same for values. |
| `PullContext.PullCtx.PullAction` | AGENT_SERVICE/php_mapi/ext_pack.c:712-776 | The same for action blocks. |
| `PullContext.PullCtx.PullRuleActions` | AGENT_SERVICE/php_mapi/ext_pack.c:778-798 | The same for rule actions. |
| `PullContext.PullCtx.PullPropertyName` | AGENT_SERVICE/php_mapi/ext_pack.c:946-984 | The same for property names, with the cursor set to the declared end of the name unchecked. |
| `PullContext.PullCtx.PullPropNames` | AGENT_SERVICE/php_mapi/ext_pack.c:986-1007 | The same for arrays of names, count and all. |
| `DoubleLists.DoubleList.InsertAsHead` | LIBRARY/common/double_list.c:49-78 | The list becomes the node followed by the old list; the ring of mutual links and the node count are kept. |
| `DoubleLists.DoubleList.AppendAsTail` | LIBRARY/common/double_list.c:86-115 | The list becomes the old list followed by the node. |
| `DoubleLists.DoubleList.InsertBefore` | LIBRARY/common/double_list.c:123-144 | The node stands right before its base, everything else in order. |
| `DoubleLists.DoubleList.AppendAfter` | LIBRARY/common/double_list.c:152-173 | The node stands right after its base. |
| `DoubleLists.DoubleList.Remove` | LIBRARY/common/double_list.c:180-225 | Exactly the given node leaves the list, and its own links are cleared. |
| `DoubleLists.DoubleList.GetFromHead` | LIBRARY/common/double_list.c:233-249 | Pops the first node, or returns NULL on an empty list. |
| `DoubleLists.DoubleList.GetFromTail` | LIBRARY/common/double_list.c:257-278 | Pops the last node, or returns NULL. |
| `DoubleLists.AppendList` | LIBRARY/common/double_list.c:286-346 | The destination becomes the concatenation; the source stays a proper list exactly when one of the two was empty before. With an empty destination it keeps all its nodes, shared. |
| `DoubleLists.DoubleList.GetBefore` | LIBRARY/common/double_list.c:355-374 | The predecessor, NULL at the head. |
| `DoubleLists.DoubleList.GetAfter` | LIBRARY/common/double_list.c:382-401 | The successor, NULL at the tail. |
| `DoubleLists.DoubleList.Forward` | LIBRARY/common/double_list.c:409-437 | Moves towards the tail, stops there, and reports the distance actually moved. |
| `DoubleLists.DoubleList.Backward` | LIBRARY/common/double_list.c:445-473 | Moves towards the head, stops there, and reports the distance actually moved. |
| `DoubleLists.DoubleList.GetHead` | LIBRARY/common/double_list.c:498-508 | The first node or NULL. |
| `DoubleLists.DoubleList.GetTail` | LIBRARY/common/double_list.c:516-530 | The last node or NULL. |
| `LibBuffers.LibBufferInit` | LIBRARY/common/lib_buffer.c:15-51 | A pool with nothing carved and nothing handed out, or NULL for a zero size. |
| `LibBuffers.LibBuffer.Get` | LIBRARY/common/lib_buffer.c:82-141 | Succeeds exactly while fewer than item_num buffers are out: the head of the free chain, or else the first slot never carved. The buffer is one that nobody holds, holds item_size zero bytes, and no other live buffer changes. The free chain stays disjoint from the live ones and duplicate-free, and together they are the slots carved. |
| `LibBuffers.LibBuffer.Put` | LIBRARY/common/lib_buffer.c:149-186 | Returns a live buffer: it joins the free chain, the count drops by one, other live buffers keep their bytes. |
| `LibBuffers.LibBuffer.OffsetIs` | LIBRARY/common/lib_buffer.c:94-141 | Slot k stands at heap_begin plus k times item_size and eight bytes. |
| `LibBuffers.PartitionPop` | LIBRARY/common/lib_buffer.c:94-108 | Taking the head of the free chain keeps chain and live slots disjoint, duplicate-free and exhaustive. |
| `LibBuffers.PartitionPush` | LIBRARY/common/lib_buffer.c:165-183 | So does putting a live slot back. |
| `IntHashes.IntHashInit` | LIBRARY/common/int_hash.c:33-83 | An empty table with eight buckets per item, or NULL for a zero size. |
| `IntHashes.IntHashTable.Add` | LIBRARY/common/int_hash.c:137-205 | Insert if absent: 1 and the pair appended; -1 without a value, -2 when full (even for a key already there), -4 for a key already there, and nothing changes. -3 is never returned, because pool and table stay in step. |
| `IntHashes.IntHashTable.FindInBucket` | LIBRARY/common/int_hash.c:158-170 | The bucket search finds the key's node exactly when the key is in the table, so every item is in the bucket of its key. |
| `IntHashes.IntHashTable.Query` | LIBRARY/common/int_hash.c:219-256 | The item of the key, NULL exactly when the key is absent. |
| `IntHashes.IntHashTable.Remove` | LIBRARY/common/int_hash.c:269-310 | Deletes the key: 1 when it was there, -2 otherwise; the other pairs stay in order. |
| `IntHashes.IntHashTable.RemoveItem` | LIBRARY/common/int_hash.c:294-308 | One item leaves its bucket, the insertion-order list and the pool together. |
| `IntHashes.BucketSizesSum` | LIBRARY/common/int_hash.c:137-310 | In every valid table the bucket sizes add up to item_num. |
| `IntHashes.LookupFindsKeys` | LIBRARY/common/int_hash.c:219-256 | In the table's pairs a key is found exactly when it occurs. |
| `IntHashes.LookupAfterAdd` | LIBRARY/common/int_hash.c:137-205 | After adding an absent key, that key is found with its value and every other lookup is as before. |
| `IntHashes.LookupAfterRemove` | LIBRARY/common/int_hash.c:269-310 | After deleting a key it is not found and every other lookup is as before. |
| `IntHashes.WithoutAt` | LIBRARY/common/int_hash.c:269-310 | With distinct keys, deleting the key at a position is deleting that position. |
| `HashIters.HashIter.Begin` | LIBRARY/common/int_hash.c:376-379 | Stands at the head of the insertion order; the position counter is not reset. |
| `HashIters.HashIter.GetValue` | LIBRARY/common/int_hash.c:405-425 | Key and value of the current item. |
| `HashIters.HashIter.Forward` | LIBRARY/common/int_hash.c:434-455 | To the next item, or to the head after the head was removed; the position counter goes up by one. |
| `HashIters.HashIter.Remove` | LIBRARY/common/int_hash.c:464-503 | Removes the current item: the iterator steps back first, to NULL from the head, and the counter wraps through 64 bits. |
| `HashIters.Traverse` | LIBRARY/common/int_hash.c:372-503 | The documented loop with an optional removal at each item, for every choice of removals and every starting counter p: it visits exactly the first n - p items, once each and in insertion order, and leaves the items that were not removed in their old order. A fresh iterator visits all of them. |
| `LineReader.LineBuffer.ReadLine` | AGENT_SERVICE/alock/main.c:623-654 | read_line over any arrival of bytes equals the fold of its single reads: a line and offset 0, or failure with the bytes kept. |
| `LineReader.CutsDoNotMatter` | AGENT_SERVICE/alock/main.c:623-654 | However a one-line reply is cut into reads, read_line returns that line behind what the buffer already holds if it fits 1024 bytes, and fails with a full buffer otherwise. |
| `LockInvariant.StepKeepsPlaces` | AGENT_SERVICE/alock/main.c:385-446 | No step of any thread creates, drops or duplicates a backend connection. |
| `LockInvariant.EveryRunKeepsInv` | AGENT_SERVICE/alock/main.c:319-621 | In every interleaving from the start: each backend connection is in exactly one of back_list, lost_list, the scanner's hands or one worker's; sockets are closed exactly in lost_list and while waiting for reconnection; sessions are in a legal state; the front lists are as admitted. |
| `LockInvariant.BackListIsSafe` | AGENT_SERVICE/alock/main.c:386-446 | A member of back_list is open, is there once, and is owned by nobody else. |
| `LockInvariant.LostListIsSafe` | AGENT_SERVICE/alock/main.c:585-597 | A member of lost_list has a closed socket and is nowhere else; ownership has passed at the append although the session's pointer is cleared later. |
| `LockInvariant.LockedHoldsOneBackend` | AGENT_SERVICE/alock/main.c:480-580 | At the head of its loop a session is in state LOCK exactly when it holds a backend, which then is open and which no list and no other worker has. |
| `Texts.OneLineExactlyWhenPlain` | SYSTEM_ADMIN/locker/main.c:673-684 | What a broker takes for one line is one line to the service behind it exactly when no CRLF is inside; otherwise it is at least two. |
| `Texts.FirstLine` | SYSTEM_ADMIN/locker/main.c:673-684 | The first line of a text ends at its first CRLF, and the rest is divided in the same way. |
| `Texts.Divided` | SYSTEM_ADMIN/locker/main.c:673-684 | A text with a CRLF inside divides there into a plain line and the lines of the rest. |
| `Texts.Commands` | SYSTEM_ADMIN/locker/main.c:673-684 | A line from a client holds at least one command, and just one exactly when no CRLF is inside. |
| `LockInvariant.StepKeepsSessions` | AGENT_SERVICE/alock/main.c:480-621 | Every step keeps the session states legal, and for each line of a client there has been exactly one text of reply, but for a pending one; out of step, such a text may hold the replies to several commands of the line. |
| `LockSafety.OneReplyLineForEachLine` | AGENT_SERVICE/alock/main.c:480-621 | In every careful run each of those texts is a single line: a client has got one line for each line it has sent, but for a pending one. |
| `LockInvariant.TrueIsSaid` | AGENT_SERVICE/alock/main.c:536-609 | In all states, careful or not: TRUE is said only on a reply to LOCK after which the session is in state LOCK, on a reply to UNLOCK, at the end of a conversation that failed, or after the last second in the queue. |
| `LockInvariant.LockAsksForTheName` | AGENT_SERVICE/alock/main.c:495-507 | LOCK with a name sends the first idle backend the lines of LOCK and that name, cut to 255 characters: one line if the name is plain; with back_list empty the session queues for it. |
| `LockInvariant.StepKeepsFronts` | AGENT_SERVICE/alock/main.c:345-364 | Accepting, handing over from front_list1 to front_list and leaving keep the two lists free of shared or repeated sessions, together below the number of workers, and front_list exactly what the workers serve, one each. |
| `LockInvariant.SomeWorkerWaits` | AGENT_SERVICE/alock/main.c:466-478 | There is always a worker that serves no session, since fewer sessions are admitted than there are workers. |
| `LockInvariant.StepKeepsOpen` | AGENT_SERVICE/alock/main.c:409-444 | Sockets are closed exactly while a connection is lost or waits for reconnection. |
| `LockSafety.InStepExactlyWhenCareful` | AGENT_SERVICE/alock/main.c:404-551 | In every run: all conversations with the locker stay in step (a backend in back_list has no granted lock, no line sent and no byte unread; a worker's backend has one request or one reply under way, and a granted lock just where the session says so) exactly when every read of a PING reply takes the whole reply and no name with a CRLF inside is sent to a backend. |
| `LockSafety.CarefulRunFits` | AGENT_SERVICE/alock/main.c:319-621 | A run with those two properties ends with every connection fitting the place it is in, whatever the scheduling, the cuts of the replies, timeouts and hang-ups. |
| `LockSafety.StepKeepsFits` | AGENT_SERVICE/alock/main.c:483-621 | Each step of the broker or the locker keeps every conversation in step if it is careful in that sense. Every exit from LOCK has sent UNLOCK and read its answer, or closed the socket, before the backend is given back. |
| `LockSafety.CarelessIsSeen` | AGENT_SERVICE/alock/main.c:404-423 | A step that is not careful puts its connection out of step at once. |
| `LockSafety.GrantsBelongToWorkers` | AGENT_SERVICE/alock/main.c:483-580 | In step, no backend in back_list holds a lock, and every granted lock belongs to a worker. |
| `LockSafety.LockedIsGranted` | AGENT_SERVICE/alock/main.c:536-551 | In step, a session in state LOCK at the head of its loop has been granted just the resource it asked for, unless the locker has hung up on it, and then nothing. |
| `LockSafety.StepKeepsHeldOnce` | SYSTEM_ADMIN/locker/main.c:575-611 | No step grants a resource that another connection holds. |
| `LockSafety.LockedSessionsExcludeEachOther` | AGENT_SERVICE/alock/main.c:480-551 | Mutual exclusion: in every careful run, two clients in state LOCK have different resources, unless the locker has hung up on one of them. |
| `LockSafety.WhyTrueIsSaid` | AGENT_SERVICE/alock/main.c:536-609 | In step, a client is told TRUE for one of four reasons only: its resource is granted (unless the locker has hung up since), its UNLOCK is answered so, its backend failed, or it waited a whole interval in the queue; after the last two it holds no backend. |
| `LockLeak.LeaksExactlyWhenStaleOrLeaky` | AGENT_SERVICE/alock/main.c:495-551 | One exchange, while no other connection holds a lock, in all such states: replies and reads can go so that the backend comes back to back_list with a granted lock, exactly when there is a line of what is sent up to which a LOCK is left; any line if bytes of an earlier reply were unread (whatever they are), one behind the first if not. |
| `LockLeak.LockerHolds` | SYSTEM_ADMIN/locker/main.c:551-622 | The locker holds a lock after so many lines exactly when one of them is a LOCK with no UNLOCK behind it and none is QUIT. |
| `LockLeak.PlainLeaksExactlyWhenStale` | AGENT_SERVICE/alock/main.c:404-551 | For a name without a CRLF, one exchange can leave a lock exactly when bytes of an earlier reply were unread. |
| `LockNames.StaleLeaksLater` | AGENT_SERVICE/alock/main.c:404-551 | And they are enough in the long run whoever else holds locks. |
| `LockQuits.NamesLeakExactlyWhen` | AGENT_SERVICE/alock/main.c:480-621 | In every state that is in step: LOCK with a name can be followed, carefully from then on, by a granted lock in back_list, exactly when the name has a CRLF inside and its lines leave a lock behind the first one, or at least none of them is QUIT. |
| `LockQuits.StepKeepsDoomed` | SYSTEM_ADMIN/locker/main.c:551-622 | A connection on its way to a QUIT that leaves no lock behind its first line never is in back_list with one, at any careful step. |
| `LockNames.NoQuitLeaks` | SYSTEM_ADMIN/locker/main.c:551-622 | A name of several lines, none of them QUIT, does lead to a granted lock in back_list: its later replies are taken for the answers to other commands. |
| `LockQuits.TwoLinesLater` | SYSTEM_ADMIN/locker/main.c:551-622 | A name of two lines can leave a lock behind in the long run exactly when the second one is not QUIT. |
| `LockLeak.LeakNeedsALock` | AGENT_SERVICE/alock/main.c:495-551 | Whatever is unread, only a name for which the locker comes to hold a lock can leave one behind. |
| `LockLeak.LeakNeeds` | AGENT_SERVICE/alock/main.c:495-551 | With nothing unread, only a name with a lock held behind its first line can leave one behind, however the replies are cut and timed. |
| `LockLeak.TwoLineNames` | SYSTEM_ADMIN/locker/main.c:551-622 | A name of two lines has a lock held behind the first exactly when its first line is not empty and the second is neither UNLOCK nor QUIT, or the first is empty and the second is a LOCK. |
| `LockLeak.PlainIsTight` | AGENT_SERVICE/alock/main.c:495-507 | A name without a CRLF leaves no lock behind its first line. |
| `LockSafety.Cut` | AGENT_SERVICE/alock/main.c:638-648 | A reply cut anywhere ends a read in CRLF only when all of it has been read. |
| `LockSplit.SplitPongLeavesAGrant` | AGENT_SERVICE/alock/main.c:404-423 | A run from the start in which the scanner reads half a PING reply, and a backend with a granted lock ends up in back_list. |
| `LockSplit.TwoCommandsLeaveAGrant` | AGENT_SERVICE/alock/main.c:638-648 | A run from the start without any PING: two LOCK commands arrive in one packet, and a backend with a granted lock ends up in back_list. |
| `LockScan.RotateList` | AGENT_SERVICE/alock/main.c:387-402 | The rotation that re-appends to the list it drains pops each of the original nodes once and then stops; a connection goes to temp_list exactly when it was last used interval - 1 seconds ago or earlier, and stays in back_list otherwise, both in their old order. |
| `LockSteps.LockedLineInTime` | AGENT_SERVICE/alock/main.c:569-576 | A session in state LOCK whose lock time is not over: any line but QUIT and UNLOCK is answered FALSE, and nothing else changes. |
| `LockSteps.LockedLineTooLate` | AGENT_SERVICE/alock/main.c:569-576 | When it is over, UNLOCK is sent to the session's backend besides, and the answer is not relayed. |
| `LockSteps.LockedUnlock` | AGENT_SERVICE/alock/main.c:565-568 | UNLOCK is sent on, and the answer is relayed. |
| `LockSteps.LockedQuit` | AGENT_SERVICE/alock/main.c:554-564 | QUIT sends UNLOCK, does not relay the answer, and ends the session with BYE. |
| `LockSteps.LockedReadFails` | AGENT_SERVICE/alock/main.c:544-552 | A failed read sends UNLOCK too, and ends the session without a word; what was read stays in the buffer. |
| `LockSteps.ReadyReadFails` | AGENT_SERVICE/alock/main.c:486-492 | A failed read of a session without a lock ends it: it leaves front_list and its worker waits. |
| `LockSteps.ReadyQuit` | AGENT_SERVICE/alock/main.c:510-517 | So does QUIT. |
| `LockSteps.ReadyOtherLine` | AGENT_SERVICE/alock/main.c:518-520 | Any other line but LOCK with a name is answered FALSE, and nothing else changes. |
| `LockSteps.ReadyLockQueues` | AGENT_SERVICE/alock/main.c:494-502 | LOCK with a name and no idle backend: the session queues for the name, cut to 255 characters. |
| `LockSteps.ReadyLockAsks` | AGENT_SERVICE/alock/main.c:494-509 | With one, the first is taken off back_list and gets the lines of LOCK and the name; the answer will be relayed. |
| `LockSteps.QueuedSecond` | AGENT_SERVICE/alock/main.c:523-542 | A second in the queue: a backend that is idle now is asked; otherwise one second more is counted, and after the whole interval the client is told TRUE and is ready again. |
| `LockSteps.PartOfReply` | AGENT_SERVICE/alock/main.c:623-654 | A read of a reply that leaves neither a CRLF at the end nor a full buffer only moves bytes from the socket to the buffer. |
| `LockSteps.EndlessReply` | AGENT_SERVICE/alock/main.c:590-654 | 1024 bytes without CRLF at the end are no reply: the socket is closed and the connection goes to lost_list. |
| `LockSteps.NoReply` | AGENT_SERVICE/alock/main.c:590-601 | Neither is a failed read. |
| `LockSteps.WholeReplyRead` | AGENT_SERVICE/alock/main.c:602-620 | A whole reply is relayed where that is asked for; TRUE to a session without a lock gives it one, and after anything else the backend joins back_list. |
| `LockSteps.Returned` | AGENT_SERVICE/alock/main.c:585-621 | Then the session is ready with its fields cleared, told TRUE if its answer is owed, or it is over. |
| `LockSteps.OutOfTurn` | AGENT_SERVICE/alock/main.c:483-581 | A worker takes no step but those of the place it is at. |
| `LockSteps.Admitted` | AGENT_SERVICE/alock/main.c:345-364 | A client is admitted exactly while the two front lists together are at least two short of the limit. |
| `LockSteps.Woken` | AGENT_SERVICE/alock/main.c:463-480 | A worker that wakes takes the client that waited longest, in state READY. |
| `LockSteps.Rotated` | AGENT_SERVICE/alock/main.c:387-402 | The rotation moves the idle connections, and only them, from back_list to the pings. |
| `LockSteps.PingSent` | AGENT_SERVICE/alock/main.c:405-407 | PING goes to the first of them. |
| `LockSteps.PingAnswered` | AGENT_SERVICE/alock/main.c:412-424 | Any bytes, at most 1024 at once, are an answer, and put the connection back into back_list. |
| `LockSteps.PingUnanswered` | AGENT_SERVICE/alock/main.c:412-418 | Without one the connection is closed and lost. |
| `LockSteps.Collected` | AGENT_SERVICE/alock/main.c:427-431 | After the last ping, all lost connections are collected for reconnection. |
| `LockSteps.Reconnected` | AGENT_SERVICE/alock/main.c:433-446 | Each is opened anew and idle, or lost again. |
| `LockSteps.AnswerWhileHeld` | SYSTEM_ADMIN/locker/main.c:539-560 | The locker, a lock being held: UNLOCK gives it up and says TRUE; any other line says FALSE, and gives it up only after the lock time. |
| `LockSteps.AnswerToLock` | SYSTEM_ADMIN/locker/main.c:562-606 | LOCK with a name waits exactly as long as anyone holds that name, then holds it and says TRUE. |
| `LockSteps.AnswerToOthers` | SYSTEM_ADMIN/locker/main.c:607-619 | PING says TRUE, any other line FALSE, and nothing is held. |
| `LockSteps.AnswerToQuit` | SYSTEM_ADMIN/locker/main.c:544-616 | QUIT gives up what is held, says BYE and closes. |
| `LockSteps.HungUp` | SYSTEM_ADMIN/locker/main.c:527-537 | A hang-up gives it up without a word. |
| `LockSteps.WordsInAnyCase` | AGENT_SERVICE/alock/main.c:510-609 | QUIT, TRUE and PING are recognised in any case, letter by letter. |
| `LockSteps.LockWordsInAnyCase` | AGENT_SERVICE/alock/main.c:494-565 | So are LOCK with its space, and UNLOCK. |
| `LockSteps.UpperAndLower` | AGENT_SERVICE/alock/main.c:494-609 | The case of the 26 letters is all that such a comparison passes over. |
| `LockSteps.TextEndsAtNul` | AGENT_SERVICE/alock/main.c:494-510 | A command ends at the first NUL. |
| `LockSteps.LineEndsAtPair` | SYSTEM_ADMIN/locker/main.c:676-686 | A line ends at the first pair of CR and LF, and the rest is divided in the same way. |
| `Relay.TransferResponse` | AGENT_SERVICE/amidb/main.c:708-820 | For every stream and every way it arrives: reads go on as long as the bytes so far call for more; with 0 the bytes written are exactly the bytes read, with -1 they are a prefix of them, and it is -1 only when the socket stops delivering or the reply is not acceptable. |
| `Relay.TransferLines` | AGENT_SERVICE/amidb/main.c:746-817 | The buffered form for replies of many lines, with its full-buffer flush, decides as the plain count of CRLF pairs over all bytes read does. |
| `Relay.TransferLine` | AGENT_SERVICE/amidb/main.c:722-745 | The same for replies of one line. |
| `Relay.FindHeader` | AGENT_SERVICE/amidb/main.c:763-787 | The header search of the code equals the header of the bytes read: the first CRLF within 36 bytes after TRUE or FALSE. |
| `Relay.CountPairs` | AGENT_SERVICE/amidb/main.c:789-793 | The loop counts exactly the CRLF pairs from a position on; the NUL behind the data keeps a trailing CR from counting. |
| `Relay.MakeRoom` | AGENT_SERVICE/amidb/main.c:800-816 | After a flush what is written plus what is kept is what was read, and the place to count from next is the same place in the stream, also when a CR and its LF are split by the flush. |
| `Relay.GoesOn` | AGENT_SERVICE/amidb/main.c:789-816 | However bytes are appended, the header stays and the count so far plus the pairs from the seam on is the count of all pairs. |
| `Relay.CompleteRepliesAreRelayed` | AGENT_SERVICE/amidb/main.c:708-820 | A reply that calls for more until its last byte reaches the client byte for byte under any chunking, and the transfer succeeds exactly when all of it has arrived. |
| `Relay.OneLineIsComplete` | AGENT_SERVICE/amidb/main.c:722-745 | Every single line below 257 KiB is such a reply for one-line commands. |
| `Relay.CountedIsComplete` | AGENT_SERVICE/amidb/main.c:746-817 | So is TRUE n followed by exactly n CRLF pairs, the last at the end, for many-line commands. |
| `Relay.HeaderEndsBefore36` | AGENT_SERVICE/amidb/main.c:763-787 | For all bytes read so far, p being where the first CRLF begins: TRUE n with p below 36 is found and counted from p + 2 (or refused when n is negative), FALSE with p below 36 is a refusal, and at 36 or later nothing is found. |
| `Relay.ManyLinesAreJudged` | AGENT_SERVICE/amidb/main.c:746-798 | Hence the verdict on a reply of many lines, with the literal limits: without a header up to 1024 bytes are waited for; with one, as many CRLF pairs behind it as it says. |
| `Relay.NoLineIsJudged` | AGENT_SERVICE/amidb/main.c:722-787 | Before the first CRLF more is called for, up to 1024 bytes of many lines or 263168 of one. |
| `Relay.OneLineIsJudged` | AGENT_SERVICE/amidb/main.c:735-744 | A reply of one line is done exactly when the bytes read end in CRLF, and fails when 263168 bytes do not. |
| `Relay.PairsAreCounted` | AGENT_SERVICE/amidb/main.c:789-793 | The count is the number of positions from there on at which CR and LF stand. |
| `Relay.LongHeaderIsMissed` | AGENT_SERVICE/amidb/main.c:763-787 | A header TRUE n whose CR is at position 36 or later is never found: such a reply fails once more than 1024 bytes have come. |
| `MidbSteps.CommandWords` | AGENT_SERVICE/amidb/main.c:592-656 | Exactly 22 seven-character command words, in any case, are answered by one line and exactly 9 by many; all others are unknown. |
| `MidbSteps.CommandTaken` | AGENT_SERVICE/amidb/main.c:592-664 | An unknown command, a path too long and one without a server change nothing; another command waits for the first server whose prefix starts its path. |
| `MidbSteps.ConnectionTaken` | AGENT_SERVICE/amidb/main.c:520-539 | The first idle connection of that server is taken off its list, and gets the commands that the line divides into. |
| `MidbSteps.NoneIdle` | AGENT_SERVICE/amidb/main.c:524-537 | Without one the worker looks again each second, sixty times, and then gives up. |
| `MidbSteps.ReplyTransferred` | AGENT_SERVICE/amidb/main.c:681-702 | A transfer ends after so many bytes exactly when they make up a reply: the client gets these, the rest stays unread, the connection joins the tail of its own server's list. |
| `MidbSteps.TransferFailed` | AGENT_SERVICE/amidb/main.c:681-688 | A transfer that fails closes the connection, which is lost. |
| `MidbSteps.Rotated` | AGENT_SERVICE/amidb/main.c:410-427 | The rotation moves the idle connections of every server, and only them, to the pings. |
| `MidbSteps.PingSent` | AGENT_SERVICE/amidb/main.c:431-433 | PING goes to the first of them. |
| `MidbSteps.PingAnswered` | AGENT_SERVICE/amidb/main.c:438-451 | Any bytes, at most 1024 at once, are an answer, and put the connection back into its own server's list. |
| `MidbSteps.PingUnanswered` | AGENT_SERVICE/amidb/main.c:438-444 | Without one the connection is closed and lost. |
| `MidbSteps.Collected` | AGENT_SERVICE/amidb/main.c:454-458 | After the last ping, all lost connections are collected for reconnection. |
| `MidbSteps.Reconnected` | AGENT_SERVICE/amidb/main.c:460-475 | Each is opened anew and idle with its own server, or lost again. |
| `MidbSteps.CommandHandled` | EXCHANGE_SYSTEM/midb/cmd_parser/cmd_parser.c:257-304 | midb handles the first command it has been sent: QUIT says BYE and closes, fewer than two words say FALSE 1, a missing mailbox says FALSE 0 twice, an unknown command once; only this connection changes. |
| `MidbSteps.OutOfTurn` | AGENT_SERVICE/amidb/main.c:542-702 | A worker takes no step but those of the place it is at. |
| `MidbSteps.WordsAreCounted` | EXCHANGE_SYSTEM/midb/cmd_parser/cmd_parser.c:328-367 | Words are counted between spaces, however many there are. |
| `MidbSteps.BracesEndTheWords` | EXCHANGE_SYSTEM/midb/cmd_parser/cmd_parser.c:328-367 | A brace starts the last word and must be closed at the end of the command; if not, there are none. |
| `MidbPool.FindServer` | AGENT_SERVICE/amidb/main.c:501-516 | The search loop finds the first server, in list order, whose prefix starts the path. |
| `MidbPool.FirstServer` | AGENT_SERVICE/amidb/main.c:501-516 | That server matches and no earlier one does; none is found only if none matches. |
| `MidbPool.PathIsTheWord` | AGENT_SERVICE/amidb/main.c:481-498 | The mailbox path is the word behind the command, up to a space; a word over 255 characters is refused. |
| `MidbSteps.PathIsTrimmed` | AGENT_SERVICE/amidb/main.c:481-498 | The path is the word behind the command without the tabs around it; a word of more than 255 characters, tabs and all, is refused. |
| `MidbPool.EveryLineGoesToTheFirstMatch` | AGENT_SERVICE/amidb/main.c:664-690 | In every run each line was written on a connection of the first server whose prefix starts the mailbox path in it. |
| `MidbPool.CommandsAreRightExactlyWhenLinesAgree` | EXCHANGE_SYSTEM/midb/cmd_parser/cmd_parser.c:257-262 | In every run: each command that midb finds in what it was sent, and that names one of the servers, has reached that server, exactly when the commands inside each line agree on the server. |
| `MidbPool.PlainLinesAgree` | AGENT_SERVICE/amidb/main.c:664-672 | A line without a CRLF inside is one command and agrees with itself. |
| `MidbAstray.SecondCommandGoesAstray` | AGENT_SERVICE/amidb/main.c:664-672 | A run from the start in which two commands arrive in one packet and the second reaches the wrong server. |
| `MidbAstray.NextClientGetsTheSecondReply` | EXCHANGE_SYSTEM/midb/cmd_parser/cmd_parser.c:257-304 | A run from the start without any PING: two commands for one server arrive in one packet, the client gets the first reply and nothing is unread, and the next client gets the second reply while its own command waits. |
| `MidbReplies.InStepExactlyWhenCareful` | AGENT_SERVICE/amidb/main.c:664-690 | In every run: all conversations with midb stay in step (a connection that is given back has nothing unread and nothing waiting to be handled; one in use has one command with midb, or just its reply) and every client has got the one reply to its own line, exactly when no line with a CRLF inside is sent, and every read of a PING reply and every transfer takes all there is. |
| `MidbReplies.StepKeepsInStep` | AGENT_SERVICE/amidb/main.c:391-702 | Each step of the broker or midb keeps that, if it is careful in that sense, whatever replies midb makes and whenever it hangs up. |
| `MidbReplies.CarelessIsSeen` | AGENT_SERVICE/amidb/main.c:425-426 | A step that is not careful puts its connection out of step at once. |
| `MidbReplies.OwnReplyExactlyWhenQuiet` | AGENT_SERVICE/amidb/main.c:664-690 | For all states, plain lines and complete replies: after sending the line, midb handling one command and the transfer, the client has the one reply to its line and nothing is left behind, exactly when there was nothing before, unread or waiting to be handled. |
| `MidbReplies.TidyRunsAreCareful` | AGENT_SERVICE/amidb/main.c:708-820 | It is enough that no line with a CRLF inside is sent, PING replies are read whole and midb's replies are complete for their commands: then every transfer takes all there is, however the replies are cut up. |
| `MidbReplies.MissingMailboxLeavesALine` | EXCHANGE_SYSTEM/midb/cmd_parser/cmd_parser.c:277-300 | midb's own replies are not all complete: in step, a missing mailbox is reported in two lines, and a transfer that reads the first of them leaves the other one behind. |
| `MidbShift.BehindStaysBehind` | AGENT_SERVICE/amidb/main.c:664-690 | A connection on which something is left over stays behind at every step, as long as it is not closed, each read takes bytes of one reply, and midb does reply. |
| `MidbShift.BehindForGood` | AGENT_SERVICE/amidb/main.c:664-690 | In every such continuation each later client on the connection gets bytes of which none is a reply to its own line. |
| `MidbShift.GivenBackBehindExactlyWhenNotQuiet` | AGENT_SERVICE/amidb/main.c:685-690 | An open connection that a transfer or a PING read gives back is behind exactly when something is unread or waiting on it. |
| `MidbReplies.EveryClientGetsItsOwnReply` | AGENT_SERVICE/amidb/main.c:664-690 | In every careful run each client has got the text of the one reply that midb made to its own line, byte for byte from that reply. |
| `MidbReplies.TransferFinishes` | AGENT_SERVICE/amidb/main.c:708-820 | A successful transfer_response over what midb has written is a step of the pools' machine, with the client getting the bytes written. |
| `MidbPool.EveryRunRoutes` | AGENT_SERVICE/amidb/main.c:391-702 | In every run each server's list holds only connections of that server, and every connection is in exactly one place. |
| `MidbPool.StepKeepsRouted` | AGENT_SERVICE/amidb/main.c:431-475 | Every step returns a connection only to its own server's list or to lost_list. |
| `MidbPool.StepKeepsPlaces` | AGENT_SERVICE/amidb/main.c:391-702 | No step creates, drops or duplicates a connection. |

## Left out

- Wide strings of the codec: they go through `iconv`, which is foreign code.
- `ext_pack.c` beyond restrictions, values, rule actions and property names (notifications, permission sets, sort orders and the like): the same patterns over flat records.
- `malloc` failure, mutexes of the pool (`lib_buffer_get` and `lib_buffer_put` are modelled as the atomic operations their mutex makes them), and freeing.
- `default_int_hash_function`: the hash is an arbitrary function, so its quality plays no part.
- `int_hash_iter_backward`: it is commented out.
- Sockets, clocks and scheduling: their outcomes are labels and parameters. Liveness of condition-variable wake-ups and the shutdown path of `main` are not modelled.
- The acceptor and the front lists of `amidb`: the same code as in `alock`, where they are modelled.
- `asession`, `asensor` and `ip4_hash.c`: the same pools without the lock state, the same table with string keys.
- LockSafety.InStepExactlyWhenCareful: the client's line is one label, so its arrival in pieces is covered by `LineReader.CutsDoNotMatter` and not by the state machine; the backend's reply is read chunk by chunk.
- LockLeak.LeaksExactlyWhenStaleOrLeaky: no other session holds a lock, so that LOCK does not have to wait, and all replies fit the 1024 bytes of one buffer.
- LockSafety.LockedSessionsExcludeEachOther: a client whose connection to the locker was hung up is not told so, and goes on in state LOCK; the model follows the code in this.
- `locker` beyond the thread that serves a connection: its listener, its access list and its console.
- `midb` beyond its command loop: what a command does, and which reply its handler writes. Its limits on the number of arguments and on the size of its buffer are not modelled; it may hang up at any time.
- LockInvariant.EveryRunKeepsInv: the seconds a session spends in the queue are counted, but elapsed time otherwise appears only as the flags and sets in the labels.
- MidbShift.BehindForGood: a read that takes more than one reply can catch up, and is left out of the condition.
- CodecLaws.PropvalsArePrefixFree: equality is up to the length fields of action blocks, which push does not write as given.
