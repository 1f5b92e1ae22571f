# sfcc in Dafny

sfcc is a client library for CIM servers. It prints object paths and instances as CIM-XML (DMTF DSP0201), reads the
answers with a lexer that writes into the text it reads, and keeps its data in small C containers. This project models
the parts of it that compute something and proves what they are for.

| part | modules |
|---|---|
| characters to tokens | `CText`, `Lexing` (the lexer on values), `XmlParser` (the lexer in place), `CimTags`, `TagLookup`, `WrittenXml`, `OtherMarkup` (text in any form) |
| tokens to trees | `TokenCodes`, `Syntax` (trees and their tokens), `Grammar` (a parser on values), `ParserState` (the parser with pushback) |
| object paths to text and back | `Markup`, `CimData`, `PathXml`, `PathWriter`, `PathReader`, `KeyReading` (keys written by others) |
| instances to text and back | `InstanceXml`, `InstanceWriter`, `InstanceReader`, `PropertyReading` (properties written by others), `Escaping`, `StringBuffers` |
| hash table | `HashModel` (buckets as values), `HashRuns` (runs), `HashTables` (linked pairs), `BucketSearch`, `StringKeys` |
| list with a cursor | `GenericLists` |
| property lists, instances, equality of paths | `PropertyModel`, `Instances`, `PathEquality` |
| shared environment, transfer watchdog, intervals | `Connection`, `Watchdog`, `DateTimes`, `Arithmetic` |

Code that changes state in the library is a class or a method here, with the same fields, loops and branches, and is
proved against a function; the theorems are about these functions. Token streams and linked lists are cons lists, so
that a proof follows the data. Text is in pieces on the printing side (`Markup.Piece`), so that one list of pieces has
both a printed form and a list of tokens.

Main results:

- What the lexer's writes leave behind is never seen: the lexer in place returns the tokens of the lexer on values, and
  every string it has handed out stays what it was (`XmlParser.XmlBuffer.SfccLex`, `ReadToken`).
- The parser accepts exactly the grammar's inputs, consumes exactly the tokens of the tree it returns, and leaves no
  token pushed back (`Grammar.InstanceGrammar`, `Grammar.Refused`, `ParserState.Parser.InstanceElement`).
- A path or an instance that is printed, lexed in place, parsed and rebuilt comes back in a normal form that is spelled
  out, and exactly those that are described by a condition on their values come back unchanged
  (`PathReader.ThereAndBack`, `PathXml.ExactPaths`, `InstanceReader.ThereAndBack`, `InstanceXml.ExactInstances`).
- What others write is read as the tables say: attributes in any order, spelling and quotes, elements closed by "/>",
  comments, CDATA sections, types and truth values in any spelling, any number, repeated and missing values
  (`WrittenXml.ClosedElement`, `OtherMarkup.SectionRead`, `KeyReading.FirstBindingCounts`,
  `PropertyReading.LastPropertyCounts`).
- The hash table is a map under any run of operations, releases each key and value once, and is never loaded beyond 15
  elements a bucket (`HashRuns.RunRefinesMap`, `RunConserves`, `RunLoad`).
- A walk over the list may remove the current element at any stops (`GenericLists.WalkRemoving`).
- One-sided comparison of key lists means equal types, states and texts under every name (`PathEquality.SameMeans`).
- A transfer is aborted exactly where a condition on all clock readings so far says so (`Watchdog.AnyClock`).
- In every interleaving without one particular step, no environment is unloaded under a live client; that step always
  breaks it (`Connection.RunsSafe`, `StepSafe`).

Where the code does not do what one would expect of it, the model does what the code does, and a lemma says when the
expectation holds:

- The branch for boolean keys in `value.c:269` compares the type, not the value, with "true". Every boolean key is read
  as false (`CimData.ExactScalars`).
- A comment right behind the characters of an element ends the reading, since its '<' has been overwritten; and a CDATA
  section whose text starts with a letter or digit is taken for none (`OtherMarkup.CommentBehindCharacters`,
  `SectionRefused`).
- The process functions of VALUE.REFARRAY and VALUE.OBJECTWITHPATH hand over another end token than the tag table has
  (`OtherMarkup.EmptyElementEnds`).
- `AsciiToXmlStr` grows its block once a character. For some strings of one or two characters that is not enough
  (`Escaping.Fits`, and `AsciiToXmlStr` with both directions).
- `cmciConnect2` gives up a count after a failed load, although none was taken. If another thread has connected in
  between, its environment is unloaded (`Connection.StrayCleanup`).
- `getNameSpaceComponents` drops an empty last component, so a reference property loses a trailing slash and an empty
  name space (`InstanceXml.CutNs`); `pathToXml` splits differently and loses nothing.
- `bin2chars` writes more than 25 characters from 8.64e18 microseconds on (`DateTimes.TooLong`).
- Without unique key names `sameCMPIObjectPath` is not symmetric (`PathEquality.OneSided`).
- A key property that was once set to null is a key no more, whatever is set later (`PropertyModel.KeySurvives`).

## Model

| member | source | states |
|---|---|---|
| Lexing.Lex | backend/cimxml/cimXmlParser.c:1270-1311 | one call of the lexer on values; the pair of remaining text and pending end tag gets smaller with every token, so the token stream is finite |
| XmlParser.XmlBuffer.constructor | backend/cimxml/cimXmlParser.c:56-67 | a new buffer stands for its text, with nothing handed out |
| XmlParser.XmlBuffer.SkipWS | backend/cimxml/cimXmlParser.c:76-80 | the cursor moves to the first character that is no blank |
| XmlParser.XmlBuffer.NextEquals | backend/cimxml/cimXmlParser.c:112-120 | true exactly for the word followed by no letter or digit |
| XmlParser.XmlBuffer.GetWord | backend/cimxml/cimXmlParser.c:130-141 | the cursor moves behind the word, or stays |
| XmlParser.XmlBuffer.GetValue | backend/cimxml/cimXmlParser.c:238-254 | hands out the attribute value between the quotes; the terminator written over the closing quote changes neither the text to come nor any string handed out before |
| XmlParser.XmlBuffer.TrimTail | backend/cimxml/cimXmlParser.c:266-272 | the blanks at the end of content are overwritten, and nothing else |
| XmlParser.XmlBuffer.GetContent | backend/cimxml/cimXmlParser.c:257-274 | hands out the trimmed content; the overwritten '<' lives on in nulledChar, so the state still stands for the text from that '<' on |
| XmlParser.XmlBuffer.TagEquals | backend/cimxml/cimXmlParser.c:143-159 | a tag's name is read behind a '<', or behind the terminator that has replaced it |
| XmlParser.XmlBuffer.OneAttr | backend/cimxml/cimXmlParser.c:166-234 | one round of the attribute loop keeps the meaning of the rest of the list |
| XmlParser.XmlBuffer.AttrsOk | backend/cimxml/cimXmlParser.c:166-234 | the attributes found are those of the list on values, in any order and each at most once; it fails where that list does |
| XmlParser.XmlBuffer.NextTag | backend/cimxml/cimXmlParser.c:100-110 | finds the next '<' also where it was overwritten |
| XmlParser.XmlBuffer.SkipTag | backend/cimxml/cimXmlParser.c:122-128 | the cursor moves behind the next '>' |
| XmlParser.XmlBuffer.LexElement | backend/cimxml/cimXmlParser.c:486-1003 | the process function of a table row: attributes, the demands on them, content |
| XmlParser.XmlBuffer.LexCdata | backend/cimxml/cimXmlParser.c:1190-1213 | a CDATA section: its start is made the start of a tag and its end an end tag, ahead of the cursor |
| XmlParser.XmlBuffer.CdataClosed | backend/cimxml/cimXmlParser.c:1203-1206 | overwriting the first "]]" before a '>' is the rewriting of the remaining text by CloseCdata |
| XmlParser.XmlBuffer.SfccLex | backend/cimxml/cimXmlParser.c:1270-1311 | the lexer in place returns the token of the lexer on values, moves to the state that it moves to, and leaves every string handed out so far as it was |
| XmlParser.XmlBuffer.ReadString | backend/cimxml/cimXmlParser.c:238-274 | reading a pointer handed out earlier gives the string it was handed out for, at any later time |
| XmlParser.XmlBuffer.ReadToken | backend/cimxml/cimXmlParser.c:238-274 | the same for all pointers of a token |
| CimTags.TableValid | backend/cimxml/cimXmlParser.c:1215-1267 | the tag table is one the lexer theorems apply to |
| TagLookup.PrintedRow | backend/cimxml/cimXmlParser.c:1215-1311 | the linear search with nextEquals finds the row of every element the client prints, although INSTANCE, PROPERTY and VALUE are prefixes of other names |
| CText.Cases | backend/cimxml/cimXmlParser.c:130-141 | the letters' cases that strcasecmp and strncasecmp do not tell apart |
| WrittenXml.StartOfElement | backend/cimxml/cimXmlParser.c:166-234 | a start tag with attributes in any order, spelling, quotes and blanks is read as one with the values given |
| WrittenXml.CharactersOfElement | backend/cimxml/cimXmlParser.c:238-274 | the same for an element with characters, which are trimmed |
| WrittenXml.ClosedElement | backend/cimxml/cimXmlParser.c:209-213 | an element closed by "/>", in any form, is read as its start tag and its end tag; the end tag is lost where no tag follows |
| WrittenXml.EmptyElement | backend/cimxml/cimXmlParser.c:1282-1285 | "<name attrs/>" in front of another tag reads as start tag and end tag do |
| WrittenXml.EndOfElement | backend/cimxml/cimXmlParser.c:1287-1294 | an end tag is read up to its '>' |
| WrittenXml.MissingValue | backend/cimxml/cimXmlParser.c:238-254 | an attribute without a quoted value counts as not given |
| WrittenXml.MissingEquals | backend/cimxml/cimXmlParser.c:187-193 | no token is returned where an attribute has no equals sign |
| WrittenXml.RepeatedAttribute | backend/cimxml/cimXmlParser.c:181-205 | nor where one is repeated, in whatever spelling |
| WrittenXml.UnknownAttribute | backend/cimxml/cimXmlParser.c:181-205 | nor where one is not the element's own |
| OtherMarkup.CommentSkipped | backend/cimxml/cimXmlParser.c:1297-1300 | a comment between tags is skipped, up to the first "-->" |
| OtherMarkup.CommentBehindCharacters | backend/cimxml/cimXmlParser.c:1297-1300 | behind characters it is not, and ends the reading |
| OtherMarkup.SectionRead | backend/cimxml/cimXmlParser.c:1190-1213 | a CDATA section is read as its start token and the tokens of its text, up to the first "]]>" |
| OtherMarkup.SectionEnd | backend/cimxml/cimXmlParser.c:1259-1266 | the "</>" made of its end is read as its end token |
| OtherMarkup.SectionRefused | backend/cimxml/cimXmlParser.c:112-120 | a section that starts with a letter or digit ends the reading |
| OtherMarkup.EmptyElementEnds | backend/cimxml/cimXmlParser.c:784-875 | which rows hand over another token for "/>" than their end tag's |
| OtherMarkup.HeaderRead | backend/cimxml/cimXmlParser.c:218-222 | the document header, which "?>" closes |
| OtherMarkup.ExportRead | backend/cimxml/cimXmlParser.c:1152-1188 | an export call is read only under its name, in any spelling |
| OtherMarkup.ParamValueRead | backend/cimxml/cimXmlParser.c:584-613 | a parameter value is refused if its embedded object is neither an instance nor an object |
| Grammar.AllKeys | backend/cimxml/grammar.c:1265-1292 | completeness for key lists: every well-formed list, whatever follows, is parsed back |
| Grammar.AllValueRefs | backend/cimxml/grammar.c:1453-1492 | completeness for references, through instance paths and key bindings |
| Grammar.AllProperties | backend/cimxml/grammar.c:1089-1263 | completeness for properties of the three kinds |
| Grammar.InstanceNameGrammar | backend/cimxml/grammar.c:1265-1344 | INSTANCENAME is parsed to a tree and a rest exactly if the input is that tree's tokens in front of that rest |
| Grammar.ValueRefGrammar | backend/cimxml/grammar.c:1453-1492 | the same for VALUE.REFERENCE |
| Grammar.InstanceGrammar | backend/cimxml/grammar.c:1048-1492 | the same for INSTANCE, through values, embedded instances and references |
| Grammar.Unambiguous | backend/cimxml/grammar.c:1048-1492 | no input is the tokens of two trees |
| Grammar.Refused | backend/cimxml/grammar.c:31-36 | the process ends in a parse error exactly for inputs that start with the tokens of no tree |
| ParserState.Parser.LocalLex | backend/cimxml/grammar.c:38-48 | takes the first token of the stream, whether it was pushed back or is still to be lexed |
| ParserState.Parser.Peek | backend/cimxml/grammar.c:38-48 | a token that is read and pushed back leaves the stream as it was |
| ParserState.Parser.LocalNameSpacePath | backend/cimxml/grammar.c:977-1012 | the names up to the end tag, with the token behind the loop pushed back and taken again |
| ParserState.Parser.NameSpacePath | backend/cimxml/grammar.c:943-975 | host and local path in order |
| ParserState.Parser.InstanceNameElement | backend/cimxml/grammar.c:1265-1292 | does what the parser on values does, and leaves the pushback empty |
| ParserState.Parser.KeyBindingElement | backend/cimxml/grammar.c:1294-1328 | the same for a key binding |
| ParserState.Parser.ValueReference | backend/cimxml/grammar.c:1453-1469 | the same for a reference |
| ParserState.Parser.ValueReferenceData | backend/cimxml/grammar.c:1471-1492 | chooses by the token looked at |
| ParserState.Parser.InstancePathElement | backend/cimxml/grammar.c:907-923 | an instance path with its host |
| ParserState.Parser.LocalInstancePathElement | backend/cimxml/grammar.c:925-941 | an instance path without a host |
| ParserState.Parser.ValueElement | backend/cimxml/grammar.c:1346-1362 | a value, characters or an embedded instance |
| ParserState.Parser.ValueContent | backend/cimxml/grammar.c:1364-1385 | the pushback is used exactly for characters |
| ParserState.Parser.ValueArrayElement | backend/cimxml/grammar.c:1387-1418 | the values in order |
| ParserState.Parser.QualifierElement | backend/cimxml/grammar.c:1112-1155 | a qualifier with its optional value or array |
| ParserState.Parser.PropertyAs | backend/cimxml/grammar.c:1157-1263 | the three kinds of property, each with only its own kind of data |
| ParserState.Parser.GenProperty | backend/cimxml/grammar.c:1089-1110 | chooses by the token looked at |
| ParserState.Parser.InstanceElement | backend/cimxml/grammar.c:1048-1087 | an accepted INSTANCE is one of the grammar, its tokens and no more are consumed, and the next parse starts with an empty pushback |
| Markup.ReadXml | backend/cimxml/cimXmlParser.c:1270-1311 | text made of start tags, end tags, content and line ends is lexed to the tokens of its pieces, followed by those of the text behind it |
| Markup.AttributesRead | backend/cimxml/cimXmlParser.c:166-234 | printed attributes fill the slots of their row in order |
| Markup.ContentToks | backend/cimxml/cimXmlParser.c:257-274 | content without '<' is read back trimmed, and then the end tag |
| Markup.NulledToks | backend/cimxml/cimXmlParser.c:100-110 | a '<' overwritten behind content is still read as the start of the end tag |
| CimData.DecScan | backend/cimxml/value.c:262-331 | a number that was printed is scanned back |
| CimData.UintPropertyRead | backend/cimxml/value.c:393-432 | a property of each unsigned width is read back |
| CimData.SintPropertyRead | backend/cimxml/value.c:393-432 | a property of each signed width is read back |
| CimData.ScalarRead | backend/cimxml/value.c:255-331 | what a printed key value is read as: integers widened to 64 bits, booleans false, strings trimmed |
| CimData.ExactScalars | backend/cimxml/value.c:262-331 | exactly which key values come back as they were |
| KeyReading.UnsignedRead | backend/cimxml/value.c:408-428 | any text of a number as an unsigned property: held to 64 bits, negated modulo 2 to the 64, cut to the type's bits |
| KeyReading.SignedRead | backend/cimxml/value.c:408-432 | the same for a signed property |
| KeyReading.NumericKey | backend/cimxml/value.c:272-282 | a numeric key, in any spelling of the type, is unsigned without and signed with a sign, held to its range |
| KeyReading.NoNumericKey | backend/cimxml/value.c:272-282 | nothing is read from a numeric key without digits |
| KeyReading.BooleanKey | backend/cimxml/value.c:267-271 | a boolean key is false, whatever is written |
| KeyReading.StringKey | backend/cimxml/value.c:329-330 | a key without a type, or of another type, is a string |
| KeyReading.ReferenceForms | backend/cimxml/value.c:283-326 | the three forms of a reference differ in their name space only; the host is not looked at |
| KeyReading.FirstBindingCounts | backend/cimxml/parserUtil.c:67-84 | of repeated key names, in whatever spelling, the first counts |
| KeyReading.PathIsBuilt | backend/cimxml/parserUtil.c:67-84 | a path is built exactly if each of its bindings can be read |
| PathXml.KeysMarkupToks | backend/cimxml/objectpath.c:472-527 | the tokens of printed keys are those of the key bindings' tree, at any depth of references |
| PathXml.SplitJoin | backend/cimxml/objectpath.c:494-507 | splitting a name space at slashes and joining the NAMESPACE names loses nothing |
| PathXml.PartsWhole | backend/cimxml/objectpath.c:494-507 | a name space is split at every slash |
| PathXml.ShapeOfReference | backend/cimxml/objectpath.c:482-515 | a reference key is printed as an instance path on the local host |
| PathXml.KeysBuilt | backend/cimxml/parserUtil.c:67-84 | the keys of the tree are rebuilt in the path's order, in normal form |
| PathXml.BuiltPaths | backend/cimxml/parserUtil.c:67-84 | whatever is parsed and rebuilt is a path again, with unique key names and values in range |
| PathXml.PathRoundTrip | backend/cimxml/objectpath.c:472-527 | a path printed inside INSTANCENAME, lexed and parsed gives its tree, with the text behind left over, and createPath makes it the path in normal form |
| PathXml.ExactPaths | backend/cimxml/value.c:262-331 | the normal form is the path itself exactly for paths of exact keys |
| PathXml.NormalIsExact | backend/cimxml/value.c:262-331 | a second way through XML changes nothing more |
| PathWriter.NameSpacesToXml | backend/cimxml/objectpath.c:494-507 | the loop that cuts the name space at each slash appends one NAMESPACE element a component |
| PathWriter.KeyToXml | backend/cimxml/objectpath.c:480-525 | one key: a plain value with its type, or a whole reference |
| PathWriter.PrintedKey | backend/cimxml/objectpath.c:516-524 | the text of a key: name, type and value |
| PathWriter.PathToXml | backend/cimxml/objectpath.c:472-527 | the string buffer grows by exactly the pieces of the keys |
| PathWriter.PrintPath | backend/cimxml/client.c:872-875 | the buffer holds the path's INSTANCENAME element |
| PathReader.AddBindings | backend/cimxml/parserUtil.c:67-84 | the loop over the bindings builds the key list |
| PathReader.JoinNames | backend/cimxml/grammar.c:983-1005 | the loop over the NAMESPACE elements joins their names |
| PathReader.ReadPath | backend/cimxml/parserUtil.c:67-84 | any 7-bit text: nothing is built if the grammar refuses it, else the path of its tree |
| PathReader.ThereAndBack | backend/cimxml/objectpath.c:472-527 | printer, lexer in place, parser with pushback and createPath composed: the path comes back in normal form |
| InstanceXml.TypeNames | backend/cimxml/cimXmlParser.c:279-320 | a type's name is looked up as that type, although the table has more names and is searched without regard to case |
| PropertyReading.NamesOfTypes | backend/cimxml/cimXmlParser.c:279-301 | the names of the types |
| PropertyReading.TypeSpelling | backend/cimxml/cimXmlParser.c:303-311 | names are looked up without regard to case |
| InstanceXml.PropToksOf | backend/cimxml/client.c:675-747 | the tokens of a printed property are those of its tree |
| InstanceXml.PropRead | backend/cimxml/parserUtil.c:86-192 | each kind of property is read back in normal form |
| PropertyReading.BooleanProperty | backend/cimxml/value.c:433-435 | a truth value is false exactly where "false" is written, in any spelling |
| PropertyReading.BooleanSpelling | backend/cimxml/value.c:433-435 | contents that differ in case give the same property |
| PropertyReading.StringProperty | backend/cimxml/parserUtil.c:102-106 | a string is what is written, with its entities resolved |
| PropertyReading.UnsignedProperty | backend/cimxml/parserUtil.c:99-110 | any number in a property of an unsigned type |
| PropertyReading.SignedProperty | backend/cimxml/parserUtil.c:99-110 | any number in a property of a signed type |
| PropertyReading.NumberMissing | backend/cimxml/parserUtil.c:99-110 | no number is read without digits |
| PropertyReading.NullProperty | backend/cimxml/parserUtil.c:99-115 | a property without a value, with an empty one, or of a missing or unknown type is null |
| PropertyReading.EmbeddedProperty | backend/cimxml/grammar.c:1364-1385 | an embedded instance is read like any other |
| PropertyReading.ReferenceProperty | backend/cimxml/parserUtil.c:117-121 | a reference property is its reference |
| PropertyReading.ArrayProperty | backend/cimxml/parserUtil.c:122-145 | each element of an array is what a property of its type would be |
| PropertyReading.NullArray | backend/cimxml/parserUtil.c:146-149 | an array that is missing or empty is null |
| PropertyReading.LastPropertyCounts | backend/cimxml/parserUtil.c:86-192 | of repeated property names, in whatever spelling, the last counts, unless one is null, which stays |
| InstanceXml.ComponentsJoin | backend/cimxml/objectpath.c:447-470 | joining the components of getNameSpaceComponents loses exactly a last slash, or the empty name space |
| InstanceXml.ComponentsWhole | backend/cimxml/objectpath.c:447-470 | no component holds a slash |
| InstanceXml.ShapeOfReference | backend/cimxml/client.c:852-893 | a reference property is printed as a local instance path, or as a name alone without a name space |
| InstanceXml.ReferenceRead | backend/cimxml/client.c:852-893 | a reference property is read back with that name space |
| InstanceXml.PropsRead | backend/cimxml/parserUtil.c:86-192 | properties come back in order; only null ones and empty arrays are gone |
| InstanceXml.InstanceRoundTrip | backend/cimxml/client.c:896-927 | an instance printed, lexed and parsed gives its tree, with the text behind left over, and setInstProperties makes it the instance in normal form |
| InstanceXml.ExactInstances | backend/cimxml/client.c:675-747 | the normal form is the instance itself exactly for the instances described by a condition on their values |
| InstanceWriter.NameSpaceList | backend/cimxml/objectpath.c:447-470 | one pass over the characters yields the components, without an empty last one |
| InstanceWriter.AddXmlNamespace | backend/cimxml/client.c:751-763 | appends the local name space path |
| InstanceWriter.AddXmlReference | backend/cimxml/client.c:852-893 | appends the reference of a path |
| InstanceWriter.AddXmlValue | backend/cimxml/client.c:675-747 | appends a property of any kind, escaped where it is text, or nothing for a null value and an empty array |
| InstanceWriter.PrintedProperty | backend/cimxml/client.c:675-747 | the text of a property with one value |
| InstanceWriter.AddXmlInstance | backend/cimxml/client.c:896-927 | the string buffer grows by exactly the pieces of the instance |
| InstanceReader.ReadPropertyData | backend/cimxml/parserUtil.c:86-192 | one property by its kind |
| InstanceReader.SetInstProperties | backend/cimxml/parserUtil.c:86-192 | the loop over the properties builds the list |
| InstanceReader.ReadInstance | backend/cimxml/parserUtil.c:86-192 | any 7-bit text: nothing is built if the grammar refuses it, else the instance of its tree |
| InstanceReader.ThereAndBack | backend/cimxml/client.c:896-927 | printer, lexer in place, parser with pushback and setInstProperties composed: the instance comes back in normal form |
| Escaping.EntityFound | backend/cimxml/client.c:551-583 | the five entities form a prefix-free code: each is recognised as its own character, whatever follows |
| Escaping.EntityNames | backend/cimxml/client.c:551-557 | which entity belongs to which character |
| Escaping.NotAnEntity | backend/cimxml/client.c:565-583 | where none of the five stands, a character is taken as it is |
| Escaping.EscapeRoundTrip | backend/cimxml/client.c:551-633 | unescaping an escaped string gives the string |
| Escaping.Injective | backend/cimxml/client.c:598-633 | different strings are escaped differently |
| Escaping.EscapedClean | backend/cimxml/client.c:551-633 | escaped text holds no '<', '>' or quote |
| Escaping.EscapedAmpersands | backend/cimxml/client.c:551-633 | every '&' in escaped text starts one of the five entities |
| Escaping.NeverLonger | backend/cimxml/client.c:585-596 | unescaping any string never makes it longer, as the size of its block assumes |
| Escaping.EscapeTrim | backend/cimxml/client.c:551-633 | escaping, trimming by the lexer and unescaping is trimming |
| Escaping.XmlToAscii | backend/cimxml/client.c:565-583 | consumes one entity or one character, and goes on with the rest |
| Escaping.XmlToAsciiStr | backend/cimxml/client.c:585-596 | the block holds the unescaped text and a terminator |
| Escaping.PutChar | backend/cimxml/client.c:611-632 | one round: at most one doubling, and whether the character's form still fits |
| Escaping.AsciiToXmlStr | backend/cimxml/client.c:598-635 | every write stays inside the block exactly for the strings of Fits, among them all of three or more characters; then the block holds the escaped text and a terminator |
| StringBuffers.SinceReset | sfcUtil/utilStringBuffer.c:61-146 | over any run, the contents are what was appended since the last reset |
| StringBuffers.StringBuffer.constructor | sfcUtil/utilStringBuffer.c:148-176 | a new buffer is empty, with a capacity of 32 if none is asked for |
| StringBuffers.StringBuffer.Grow | sfcUtil/utilStringBuffer.c:61-78 | doubling makes room; the capacity stays below twice what was needed, and all copying together costs no more than it has grown |
| StringBuffers.StringBuffer.AppendChars | sfcUtil/utilStringBuffer.c:61-78 | the text is appended and terminated inside the block; a null pointer appends nothing |
| StringBuffers.StringBuffer.AppendBlock | sfcUtil/utilStringBuffer.c:80-95 | the same for a block |
| StringBuffers.StringBuffer.ResetBuffer | sfcUtil/utilStringBuffer.c:140-146 | empties the text and keeps the block |
| StringBuffers.StringBuffer.Clone | sfcUtil/utilStringBuffer.c:40-49 | the same text in a new block |
| StringBuffers.Run | sfcUtil/utilStringBuffer.c:61-176 | any run on a new buffer ends valid, with the text of the run and the amortised bound of Valid |
| HashModel.Stored | sfcUtil/hashtable.c:292-301 | a pair is stored exactly if looking up its key finds it: each key sits once, in its own bucket |
| HashModel.LookupPut | sfcUtil/hashtable.c:224-273 | after a put, equal keys find the new pair and all others what they found before |
| HashModel.LookupRemove | sfcUtil/hashtable.c:319-349 | after a remove, equal keys find nothing and all others what they found before |
| HashModel.PutInOrder | sfcUtil/hashtable.c:238-259 | a new pair comes to the front of its bucket, a stored one keeps its place, other buckets stay |
| HashModel.PutKeeps | sfcUtil/hashtable.c:224-273 | the table stays well formed, and gains the new pair for the one with an equal key |
| HashModel.RemoveKeeps | sfcUtil/hashtable.c:319-349 | the table stays well formed, and loses the one pair |
| HashModel.RehashKeeps | sfcUtil/hashtable.c:560-597 | rehashing to any positive number of buckets loses and duplicates nothing, and puts every pair in its new bucket |
| HashModel.SameEntries | sfcUtil/hashtable.c:292-301 | tables with the same pairs answer every look-up alike |
| HashModel.FlatMeetsAll | sfcUtil/hashtable.c:811-847 | the pairs in bucket order are all pairs, each once |
| HashModel.FlatLast | sfcUtil/hashtable.c:811-847 | the pairs of a later bucket come later |
| HashRuns.StepAgrees | sfcUtil/hashtable.c:224-385 | every operation keeps table and map in agreement |
| HashRuns.RunRefinesMap | sfcUtil/hashtable.c:224-385 | after any run of put, remove, removeAll and rehash, get answers as the map does and the counter is the map's size |
| HashRuns.RunLoad | sfcUtil/hashtable.c:262-268 | there are never more than 15 elements a bucket |
| HashRuns.BucketsAfter | sfcUtil/hashtable.c:262-268 | how many buckets each operation leaves: more only when a new pair brings the load above 15, and then the ideal number |
| HashRuns.RunConserves | sfcUtil/hashtable.c:224-385 | with both deallocators, what was handed in is what is still held and what was released, each key and value once |
| HashRuns.RunOnlyFor | sfcUtil/hashtable.c:238-249 | the deallocators do not matter to the table, and each is given what it is given when both are set |
| HashTables.Overwritten | sfcUtil/hashtable.c:238-249 | storing into the first equal pair of a chain is replacement in the bucket |
| HashTables.Bypassed | sfcUtil/hashtable.c:335-338 | relinking the pair before a removed one is removal from the bucket |
| HashTables.MoveChain | sfcUtil/hashtable.c:583-592 | the inner loop relinks each pair of a chain to the front of its new one |
| HashTables.HashTable.constructor | sfcUtil/hashtable.c:74-109 | a new table is empty |
| HashTables.HashTable.Get | sfcUtil/hashtable.c:292-301 | walking the chain finds what the buckets hold for the key |
| HashTables.HashTable.Put | sfcUtil/hashtable.c:224-273 | the whole state, with the deallocators' calls and the rehash, is that of the model's step |
| HashTables.HashTable.RemoveKey | sfcUtil/hashtable.c:319-349 | the same for a remove |
| HashTables.HashTable.RemoveAll | sfcUtil/hashtable.c:365-385 | the same for removeAll |
| HashTables.HashTable.Rehash | sfcUtil/hashtable.c:560-597 | the same for a rehash; the pairs are relinked, none is allocated |
| HashTables.HashTable.GetFirst | sfcUtil/hashtable.c:811-826 | the iterator stands on the first pair, or there is none |
| HashTables.HashTable.GetNext | sfcUtil/hashtable.c:828-847 | the iterator goes on by one pair, and ends after the last |
| HashTables.HashTable.Walk | sfcUtil/hashtable.c:811-847 | getFirst and getNext until NULL ends and meets every stored pair exactly once |
| BucketSearch.IsProbablePrime | sfcUtil/hashtable.c:725-736 | the loop over the odd numbers up to 49 |
| BucketSearch.Closer | sfcUtil/hashtable.c:738-748 | the search ends: each step is one closer to a number that leaves 1 modulo every candidate |
| BucketSearch.FirstFound | sfcUtil/hashtable.c:738-748 | no earlier odd number would have been taken |
| BucketSearch.IdealIsFirst | sfcUtil/hashtable.c:738-748 | every smaller odd number from 5 and a third of the elements on is divided by another odd number from 3 to 49 |
| BucketSearch.IdealLeavesRoom | sfcUtil/hashtable.c:738-748 | the result is odd, at least 5, and far from the load limit |
| BucketSearch.IdealNumOfBuckets | sfcUtil/hashtable.c:725-748 | no odd number from 3 to 49 other than the result divides it |
| BucketSearch.IdealIsPrime | sfcUtil/hashtable.c:725-748 | below 2809 the result is prime |
| BucketSearch.CalculateIdealNumOfBuckets | sfcUtil/hashtable.c:738-748 | the loop ends with the first number of the search, for every element count |
| StringKeys.CharHashFunction | sfcUtil/utilHashtable.c:32-42 | the loop computes the hash in 64 bits |
| StringKeys.CharIcHashFunction | sfcUtil/utilHashtable.c:64-74 | the same over upper-case letters |
| StringKeys.HashValue | sfcUtil/utilHashtable.c:32-74 | the hash is the number with the characters as digits in base 37, held to 64 bits |
| StringKeys.IcHashRespects | sfcUtil/utilHashtable.c:64-79 | keys equal for strcasecmp, which compares lower-case letters, hash alike |
| StringKeys.StringKeysRespect | sfcUtil/utilHashtable.c:32-79 | both pairs of functions meet what the table demands |
| StringKeys.AnySpelling | sfcUtil/utilHashtable.c:64-79 | a value put last is found under every spelling of its key |
| GenericLists.Bridged | backend/cimxml/genericlist.c:308-331 | linking the neighbours of an element leaves two mirrored chains without it |
| GenericLists.GenericList.constructor | backend/cimxml/genericlist.c:117-135 | an empty list between its sentinels |
| GenericLists.GenericList.AddToBeginning | backend/cimxml/genericlist.c:153-174 | one more element in front; a null pointer is not added |
| GenericLists.GenericList.AddToEnd | backend/cimxml/genericlist.c:176-198 | one more element at the end |
| GenericLists.GenericList.RemoveFromBeginning | backend/cimxml/genericlist.c:260-282 | the first element goes, and where the cursor is then |
| GenericLists.GenericList.RemoveFromEnd | backend/cimxml/genericlist.c:284-306 | the last element goes, and where the cursor is then |
| GenericLists.GenericList.RemoveFromList | backend/cimxml/genericlist.c:230-258 | the last occurrence goes; under the cursor it is replaced by the stand-in with its links |
| GenericLists.GenericList.RemoveCurrent | backend/cimxml/genericlist.c:308-331 | the element under the cursor goes, and the cursor stays between its neighbours |
| GenericLists.GenericList.RemoveAll | backend/cimxml/genericlist.c:333-346 | nothing is left |
| GenericLists.GenericList.FirstInList | backend/cimxml/genericlist.c:364-370 | the cursor stands on the first element |
| GenericLists.GenericList.LastInList | backend/cimxml/genericlist.c:379-385 | the cursor stands on the last element |
| GenericLists.GenericList.NextInList | backend/cimxml/genericlist.c:387-393 | the cursor goes on to the next element, also from the stand-in |
| GenericLists.GenericList.PreviousInList | backend/cimxml/genericlist.c:395-401 | the cursor goes back, also from the stand-in |
| GenericLists.GenericList.IsInList | backend/cimxml/genericlist.c:431-442 | true exactly for stored pointers |
| GenericLists.CopyList | backend/cimxml/genericlist.c:445-459 | a new list with the same pointers in the same order |
| GenericLists.KeptAround | backend/cimxml/genericlist.c:308-399 | an element is among those a walk leaves exactly if its stop is not marked |
| GenericLists.WalkRemoving | backend/cimxml/genericlist.c:308-399 | a walk that removes the current element at any stops visits every element once, in order, and leaves exactly the others, in order |
| PropertyModel.AddKeepsUnique | backend/cimxml/property.c:68-102 | names stay unique without regard to case |
| PropertyModel.GetAdded | backend/cimxml/property.c:68-148 | a name is found with what was added for it first |
| PropertyModel.GetSet | backend/cimxml/property.c:108-148 | a name is found with what was set for it last |
| PropertyModel.StoredForm | backend/cimxml/property.c:85-95 | what a list holds: strings for character pointers, nothing behind a null, and otherwise the state and value given |
| PropertyModel.StateAfterSettings | backend/cimxml/instance.c:221-248 | the state of the property of any name after any settings |
| PropertyModel.ValueAfterSettings | backend/cimxml/instance.c:221-248 | its type and value are those of the last setting for it |
| PropertyModel.LastSetting | backend/cimxml/instance.c:221-248 | with values throughout: type and value of the last setting, the old state, or a good one for a new property |
| PropertyModel.FromKeysReversed | backend/cimxml/instance.c:340-371 | an instance holds its path's keys in reverse order |
| PropertyModel.ToKeysReversed | backend/cimxml/instance.c:250-281 | a path made of an instance holds its key properties in reverse order |
| PropertyModel.PathInstancePath | backend/cimxml/instance.c:250-374 | the two reversals cancel |
| PropertyModel.PathAfterSettings | backend/cimxml/instance.c:221-281 | after any settings with values the path has the keys of the list with those settings made in it |
| PropertyModel.LastSettingCounts | backend/cimxml/instance.c:221-248 | names and order of the keys stay, and each key has the last value set for it |
| PropertyModel.KeySurvives | backend/cimxml/property.c:108-136 | under any settings, a property stays a key exactly if none made it null |
| Instances.AddProperty | backend/cimxml/property.c:68-102 | the recursion links a new node at the end, unless the name is there |
| Instances.SetProperty | backend/cimxml/property.c:108-136 | the recursion changes the one node of that name |
| Instances.GetProperty | backend/cimxml/property.c:139-148 | finds the node of a name, or there is none |
| Instances.GetPropertyAt | backend/cimxml/property.c:173-183 | finds the node at a position, or there is none |
| Instances.GetPropertyCount | backend/cimxml/property.c:198-212 | the length of the chain |
| Instances.Clone | backend/cimxml/property.c:228-250 | new nodes throughout, with the same properties |
| Instances.ClonedAt | backend/cimxml/property.c:243-255 | a clone has the properties in order; only the value of a null one is not copied |
| Instances.NewInstance | backend/cimxml/instance.c:306-374 | the countdown over the keys |
| Instances.GetObjectPath | backend/cimxml/instance.c:250-281 | the countdown over the properties |
| Instances.SetInstanceProperty | backend/cimxml/instance.c:221-248 | sets a property, or adds it if it is not there |
| Instances.ThroughInstance | backend/cimxml/instance.c:221-374 | path to instance, any settings with values, and back to a path: the same keys in the same order with the last values |
| PathEquality.SameObjectPath | backend/cimxml/objectpath.c:303-370 | the loop over the first path's keys |
| PathEquality.SameIsEqualMaps | backend/cimxml/objectpath.c:303-370 | for unique names, equal counts and a one-sided look-up mean that both paths have the same keys with the same values |
| PathEquality.SameMeans | backend/cimxml/objectpath.c:303-370 | exactly if name spaces and classes match and, under every name, both have no key or keys of equal type, state and text |
| PathEquality.SameReflexive | backend/cimxml/objectpath.c:303-370 | a path equals itself |
| PathEquality.SameSymmetric | backend/cimxml/objectpath.c:303-370 | the comparison is symmetric |
| PathEquality.SameTransitive | backend/cimxml/objectpath.c:303-370 | the comparison is transitive |
| PathEquality.OrderBlind | backend/cimxml/objectpath.c:303-370 | the order of the keys does not matter |
| PathEquality.OneSided | backend/cimxml/objectpath.c:340-366 | two paths, one with a repeated name, that are equal one way only |
| Connection.StepSafe | frontend/sfcc/sfcclient.c:46-132 | every locked section keeps the count, the environment, the release function and the released clients right, except the clean-up after a failed load while the count is not 0, which never does |
| Connection.ConnectOutcome | frontend/sfcc/sfcclient.c:84-119 | a client lives after its connect exactly if there is an environment and the backend connected; what a failure has taken |
| Connection.RunsSafe | frontend/sfcc/sfcclient.c:46-132 | every state of a run is safe exactly if no such step is taken |
| Connection.SafeIfLoadsSucceed | frontend/sfcc/sfcclient.c:46-132 | if loads succeed, every state of every interleaving is safe |
| Connection.MixedRun | frontend/sfcc/sfcclient.c:84-123 | one thread fails to load and a second one connects: such a run exists |
| Connection.StrayCleanup | frontend/sfcc/sfcclient.c:120-123 | then the first thread's clean-up leaves a live client without an environment |
| Connection.ConnectionControl.ConnectLocked | frontend/sfcc/sfcclient.c:84-119 | the locked section of a connect is the model's step |
| Connection.ConnectionControl.Release | frontend/sfcc/sfcclient.c:46-64 | the locked section of a release is the model's step |
| Watchdog.TimeoutControl.CheckProgress | backend/cimxml/client.c:253-287 | the fields change as in the model's step; an abort changes nothing |
| Watchdog.BudgetHolds | backend/cimxml/client.c:253-287 | from any state between calls, what is still accepted is within what the fix-ups left allow |
| Watchdog.WatchdogBound | backend/cimxml/client.c:146-287 | whatever the clock reads, at most 11 fix-ups and 10 times 599 seconds of plausible progress come before an abort |
| Watchdog.AbortsExactly | backend/cimxml/client.c:253-287 | from any history of readings, the next abort comes exactly where the readings say so |
| Watchdog.AnyClock | backend/cimxml/client.c:253-287 | an abort comes exactly at an unfinished call after 11 restarts, or 600 seconds or more after the last one; none comes early |
| Watchdog.RestartsOfClock | backend/cimxml/client.c:272-280 | restarts are the first reading and those behind, or more than 30 seconds ahead of, the one before |
| Watchdog.SteadyClock | backend/cimxml/client.c:253-287 | with a positive clock in steps of 0 to 30 seconds an abort comes exactly with an unfinished call 600 seconds or more after the first |
| DateTimes.IntervalRoundTrip | backend/cimxml/datetime.c:98-170 | below the limit an interval is printed in canonical form and read back |
| DateTimes.TooLong | backend/cimxml/datetime.c:151-170 | from the limit on the text is longer than its buffer |
| DateTimes.CanonicalRoundTrip | backend/cimxml/datetime.c:98-170 | a canonical text is printed again as it was |
| DateTimes.SumExact | backend/cimxml/datetime.c:109-126 | no step of the sum overflows 64 bits |
| DateTimes.SumWraps | backend/cimxml/datetime.c:109-126 | whatever was read, the sum is the interval in microseconds, modulo 2 to the 64 |
| DateTimes.NumberRead | backend/cimxml/datetime.c:112-124 | how strtoull reads blanks, a sign and a number of any size |
| DateTimes.FieldRead | backend/cimxml/datetime.c:109-126 | a field of digits, cut off with a terminator, is read as its number |
| DateTimes.Bin2CharsInterval | backend/cimxml/datetime.c:151-170 | the divisions and the format |
| DateTimes.Chars2BinInterval | backend/cimxml/datetime.c:98-126 | the copy is cut with terminators from the right to the left, and each field is read up to the next cut |

## Left out

- Text of 8-bit characters: the lexer's blank test uses plain `char`, whose sign is the compiler's choice; texts are 7-bit.
- Reading beyond the text: where the C lexer runs off its buffer or throws, and where the parser ends the process, the model stops; nothing is said of what happens then. The parser's field `dead` records that the lexer has returned no token.
- A NAMESPACE element without a name: the code would copy a null pointer; the model of the parser stops there.
- The union of token fields: the parser's trees hold tokens with strings where the C code keeps pointers into the buffer; that they stay what they were is proved of the lexer.
- Growth of the parser's value arrays, and the linked lists its add functions build: lists are values there.
- The other grammar functions: classes, methods, parameters, response envelopes and errors repeat the patterns of instances.
- The name space buffer of getNameSpaceComponents: its fixed size of 256 characters is not modelled; nor are the fixed buffers of the number formats.
- Values of other types: characters, reals, dates and embedded instances are not printed in this model, and string pointers are not null.
- Qualifiers of properties and instances: they are parsed but not turned into objects.
- setPropertyFilter: an instance has no filter here.
- Name space and class name between path and instance: they are plain copies, and only the keys are modelled.
- Loading a backend and calling it: whether a load and a connect succeed are inputs of a step; a load that returns both an environment and an error is not modelled.
- Hash ratios: 3 and 15 are exact here, floating point in the code, and changing them is not modelled; the threshold for shrinking is its default, 0.
- The iterator's bucket index after the last pair: it is not used again.
- Sizes: counts and lengths are unbounded, where the C code uses int, long and unsigned.
- Allocation failure: memory is always there.
- Absolute timestamps: they depend on the time zone of the process.
- Comparison of paths: key values are compared by a text that is a parameter of the model.
- StringBuffers.StringBuffer.Clone: requires a text without a terminator inside it, which only a block can bring in and where strdup would cut it.
- Instances.SetProperty: does not model releasing the old value.
- HashRuns.RunLoad: is not stated for runs in which a caller asks for a number of buckets, since that may be too small.
- GenericLists.GenericList.NextInList: requires the cursor to stand where its element, or the stand-in, still has its neighbours; other removals between a removal of the current element and the next move are the caller's to avoid.
- Network, HTTP, threads and the listener of indications: no part of them is modelled.
