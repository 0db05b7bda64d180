# ANSYS CDB import and export, modelled in Dafny

This project models the core of a Blender add-on that reads and writes ANSYS
`.cdb` mesh files, and proves properties of that model.

**Reader.** `read3DMesh` interprets a `.cdb` file one line at a time. The
lines are given as a sequence of strings. Each string keeps its newline.
Reading past the end yields `""`, as `readline()` does.

The reader builds three tables:
- the node table: node number to a point;
- the element table: element number to `[mat, real, type, node1, ...]`;
- the element-type table: type number to ANSYS family.

It also keeps four selectors: the current element, material, real constant
and type. The first token of each line picks a handler:
- `N`, `EN`, `ET`, `TYPE`, `MAT` and `REAL` read one line;
- `NBLOCK` and `EBLOCK` read the lines of their block, using a Fortran-style
  format line (`(3i8,6e16.9)`) that `detectFormat` expands into field widths.

The handlers are pure functions (`CdbCommands`, `CdbBlocks`). The class
`CdbReader.Reader` runs them step by step, as the source does. Each of its
methods ends in the state the matching function describes.

**Faults.** The source can crash (IndexError, NameError, UnboundLocalError,
KeyError) or loop for ever. Each of these is a `Faults.Fault` value naming
the source line where it happens.

**Faces.**
- `get_all_faces` turns each element into its faces by family and degenerate
  shape, and counts the faces per (material, real constant) group.
- `order_face` rotates a face so that it starts at its smallest node.
  `inverse_face` reverses its orientation.
- `get_outer_faces` keeps a face when its reverse never occurs in its group.
- `renumber` gives every group its own vertex list, in first-use order.

**Writer.** `write` emits:
1. a header;
2. two `ET` commands;
3. an `NBLOCK` holding the nodes;
4. an `EBLOCK` holding one SOLID record per written face (SHELL63 with four
   nodes, SHELL93 with eight); its header counts every face, written or
   skipped, as the source does;
5. `FINISH`.

The class `CdbWriter.CdbFile` stands for the open file. Its methods append
exactly the text the pure functions describe.

**Round trip.** `CdbRoundTrip` proves three things:
- a record line the writer produces is read back by the SOLID branch of
  `readEBLOCK` as the element it describes;
- a node line is read back by `readNBLOCK` as its node;
- each block terminator the writer emits meets the reader's stop test.

The whole-block lemmas chain these facts over the lines of a block. The
reader ignores the count in the `EBLOCK` command, so the element block reads
back the same whatever count its header carries.

Where the add-on's documented behaviour and its code disagree, the model follows the code:
- A face that names a node missing from the node table raises `KeyError` in
  `renumber`. It is not dropped. In the model this is `NodeMissing`.
- The end of the input inside a SOLID `EBLOCK` does not end the block. The
  empty line is parsed and stored over and over, so the reader never stops
  (`EndOfInputLoops`).
- A malformed file can raise. It does not always lead to a partial result.
  Each such case is a fault.
- In the 20-node branch, a wedge-shaped element calls `faces_on_15wedge`
  (line 669), which raises NameError on its undefined node names before the
  discarded result could matter. The face extraction of the model does not
  follow the code here; see "## Left out".

## Model

| member | source | states |
|---|---|---|
| PyText.StripOf | io_mesh_cdb/import_cdb.py:46 | `strip()` removes exactly the white space before and after a text that neither starts nor ends with white space |
| PyText.JoinSplit | io_mesh_cdb/import_cdb.py:44 | no piece of `split(',')` contains the separator, and joining the pieces with it gives back the line |
| PyText.SplitJoin | io_mesh_cdb/import_cdb.py:44 | splitting a join of separator-free pieces gives back those pieces |
| PyText.SplitPrefix | io_mesh_cdb/import_cdb.py:44 | a separator-free prefix followed by the separator becomes the first piece |
| PyText.ParseDigits | io_mesh_cdb/import_cdb.py:197 | `int()` of a nonempty run of ASCII digits is its decimal value |
| PyText.ParseIntUnsigned | io_mesh_cdb/import_cdb.py:198 | a text whose stripped form starts with a digit never parses as a negative number |
| PyText.NatToStrDigits | io_mesh_cdb/export_cdb.py:103 | `str(n)` of a natural number is a digit string whose value is n |
| PyText.ParseIntToStr | io_mesh_cdb/export_cdb.py:103 | `int(str(v)) == v` for every integer v, negative ones included |
| PyText.IntToStrFirst | io_mesh_cdb/export_cdb.py:124 | the decimal text of v starts with `-` when v is negative and with a digit otherwise |
| PyText.Col8RoundTrip | io_mesh_cdb/export_cdb.py:124-127 | a `%8i` field of an integer that fits is exactly eight characters, and `int()` of it gives the integer back |
| PyText.Fits8Range | io_mesh_cdb/export_cdb.py:124 | every integer from -9999999 to 99999999 fits in an eight-column field |
| OrderedMaps.OMap.Put | io_mesh_cdb/import_cdb.py:372 | `d[k] = v`: the map gets the new value, a new key goes to the end of the key order, an existing key keeps its place, and validity is kept |
| OrderedMaps.Empty | io_mesh_cdb/import_cdb.py:31-33 | the empty dictionary is valid and has no keys |
| CdbFormat.FindSpec | io_mesh_cdb/import_cdb.py:175 | `str.find` gives the first position of the character, or -1 exactly when it is absent |
| CdbFormat.RFindSpec | io_mesh_cdb/import_cdb.py:176 | `str.rfind` gives the last position of the character, or -1 exactly when it is absent |
| CdbFormat.Repeat | io_mesh_cdb/import_cdb.py:202-203 | a list of n copies of one field format, and none when n is not positive |
| CdbFormat.ScanGroup | io_mesh_cdb/import_cdb.py:187-195 | the character loop over a format group fills the count, kind, width and decimals buffers as the scan function says |
| CdbFormat.ScanFromShape | io_mesh_cdb/import_cdb.py:187-195 | the scan keeps its shape: the count buffer holds only digits and the width buffer starts with one |
| CdbFormat.ScanConcat | io_mesh_cdb/import_cdb.py:187-195 | scanning a + b is scanning b from where a left the buffers |
| CdbFormat.ScanCountRun | io_mesh_cdb/import_cdb.py:188-189 | before the kind letter, digits go to the count buffer |
| CdbFormat.ScanKindRun | io_mesh_cdb/import_cdb.py:190-191 | non-digits before the width go to the kind buffer |
| CdbFormat.ScanWidthRun | io_mesh_cdb/import_cdb.py:192-193 | digits after the kind go to the width buffer until a decimal point |
| CdbFormat.ScanDecRun | io_mesh_cdb/import_cdb.py:194-195 | once the decimals buffer is started, everything goes to it |
| CdbFormat.ScanKeepsCount | io_mesh_cdb/import_cdb.py:188-189 | once the kind has begun, the count buffer never changes |
| CdbFormat.WidthUnsigned | io_mesh_cdb/import_cdb.py:198 | a field width starting with a digit never parses as negative |
| CdbFormat.AppendCopies | io_mesh_cdb/import_cdb.py:202-203 | the list gets count copies of the field format appended, and none for a count that is not positive |
| CdbFormat.AppendGroup | io_mesh_cdb/import_cdb.py:183-205 | one pass of the group loop appends exactly that group's field formats |
| CdbFormat.ExpandGroups | io_mesh_cdb/import_cdb.py:181-206 | the field formats of the groups, concatenated in order |
| CdbFormat.DetectFormat | io_mesh_cdb/import_cdb.py:168-206 | the method computes the format a line describes |
| CdbFormat.ScanGroupShape | io_mesh_cdb/import_cdb.py:187-195 | `<count><kind><width>` scans into exactly those three buffers |
| CdbFormat.GroupExpands | io_mesh_cdb/import_cdb.py:183-205 | a group `<count><kind><width>` expands to count copies of that kind and width with no decimals |
| CdbFormat.GroupExpandsWithDecimals | io_mesh_cdb/import_cdb.py:196-203 | a group `<count><kind><width>.<dec>` expands to count copies that carry the decimals |
| CdbFormat.GroupWithoutCount | io_mesh_cdb/import_cdb.py:197 | a group that does not start with a digit yields no fields |
| CdbFormat.GroupWithoutWidth | io_mesh_cdb/import_cdb.py:198 | a group with no width yields no fields |
| CdbFormat.FlatGroupsAppend | io_mesh_cdb/import_cdb.py:182-205 | expanding groups distributes over concatenation of the group list |
| CdbFormat.ShortLineNoFields | io_mesh_cdb/import_cdb.py:173-174 | a line shorter than three characters describes no fields |
| CdbFormat.BracketedGroups | io_mesh_cdb/import_cdb.py:175-179 | the groups of `(<body>)\n` are the comma pieces of body |
| CdbFormat.TwoGroups | io_mesh_cdb/import_cdb.py:175-206 | a format with two groups is the first group's fields followed by the second's |
| CdbFormat.OneGroupLine | io_mesh_cdb/import_cdb.py:168-206 | a one-group line such as `(19i8)` gives its count of fields of its width |
| CdbFormat.TwoGroupLine | io_mesh_cdb/import_cdb.py:168-206 | a two-group line such as `(3i8,6e16.9)` gives both runs with their widths and decimals |
| CdbFormat.ElementDescriptorForms | io_mesh_cdb/export_cdb.py:103 | `(19i8)` is nineteen integer fields of width eight |
| CdbFormat.ElementDescriptor | io_mesh_cdb/export_cdb.py:103 | `(19i8)` has nineteen fields, each of width eight |
| CdbFormat.NodeDescriptorForms | io_mesh_cdb/export_cdb.py:91 | `(3i8,6g16.9)` is three integer fields of width eight followed by six fields of width sixteen with nine decimals |
| CdbFormat.NodeDescriptor | io_mesh_cdb/export_cdb.py:91 | `(3i8,6g16.9)` has nine fields: three of width eight, then six of width sixteen |
| CdbCommands.Initial | io_mesh_cdb/import_cdb.py:31-38 | the reader starts with empty, valid tables and every selector at 1 |
| CdbCommands.Tokenize | io_mesh_cdb/import_cdb.py:44-46 | one token per comma piece, so there is always at least one |
| CdbCommands.TokenizeJoin | io_mesh_cdb/import_cdb.py:44-46 | a command line made of stripped, lower-case, comma-free words gives back exactly those words |
| CdbCommands.TokenizeThreeWords | io_mesh_cdb/import_cdb.py:44-46 | three comma-separated words become their stripped, lower-cased forms |
| CdbCommands.NWritesOnlyValidNode | io_mesh_cdb/import_cdb.py:80-108 | `N` changes only the node table; it does so exactly when the third token is `loc` and the node number parses as positive; it then adds that number and keeps every other node |
| CdbCommands.NCoordinates | io_mesh_cdb/import_cdb.py:95-108 | the new node's x, y and z come from tokens 6, 7 and 8 when they parse, and are 0 otherwise |
| CdbCommands.AllIntsSpec | io_mesh_cdb/import_cdb.py:161-165 | a token list reads as integers exactly when every token parses, and then each value is its token's value |
| CdbCommands.ENNodeAppends | io_mesh_cdb/import_cdb.py:157-166 | `EN,,NODE` touches only the current element: any bad node number leaves everything unchanged; otherwise the element (or [mat, real, type] from the selectors) gets the node numbers appended, and every other element is kept |
| CdbCommands.ENAttrReplaces | io_mesh_cdb/import_cdb.py:126-155 | `EN,,ATTR` sets material, type and real constant from tokens 4 to 6, falling back to the selectors; token 9, when it parses, picks the element and becomes the current one; an existing element with at least three entries keeps its nodes, any other gets exactly those three entries, and every other element is kept |
| CdbCommands.ENAsWrittenAgrees | io_mesh_cdb/import_cdb.py:125-166 | while material, real and type are still 1, the code as written and the repaired `EN` agree |
| CdbCommands.MaxOfSpec | io_mesh_cdb/import_cdb.py:388 | `max` of a nonempty key list is one of the keys and at least every key |
| CdbCommands.NextTypeNumberFresh | io_mesh_cdb/import_cdb.py:385-389 | the default type number is not yet used and is above every used one |
| CdbCommands.ETDefines | io_mesh_cdb/import_cdb.py:390-399 | `ET,n,f` with both numbers parsing defines type n as family f and selects n; if either fails to parse, nothing changes; nodes and elements never change |
| CdbCommands.ETAsWrittenAgrees | io_mesh_cdb/import_cdb.py:382-399 | when `ET` names its type number, the code as written and the repaired `ET` agree |
| CdbCommands.ETDefaultTwice | io_mesh_cdb/import_cdb.py:385-397 | `ET,,f` raises as written; repaired, it defines type 1 and then type 2, selecting each in turn |
| CdbCommands.ETDefaultNumbers | io_mesh_cdb/import_cdb.py:385-397 | the line `ET,,186` raises as written; repaired, twice in a row it defines types 1 and 2 as family 186 |
| CdbCommands.SelectorCommands | io_mesh_cdb/import_cdb.py:401-441 | `TYPE`, `MAT` and `REAL` set their own selector to token 1 when it parses, keep it otherwise, and change nothing else |
| CdbCommands.CommandsKeepValid | io_mesh_cdb/import_cdb.py:66-441 | every one-line handler keeps the tables well formed |
| CdbCommands.MaterialIgnored | io_mesh_cdb/import_cdb.py:125-158 | after `MAT,5`, `EN,R5.5,ATTR,0,,,,,,7` gives element 7 material 1 as written and 5 when repaired; and `EN,,NODE` before any numbered `ATTR` raises as written |
| CdbBlocks.NodeColumnsOf | io_mesh_cdb/import_cdb.py:223-226 | the column bounds of the number and of x, y and z are the offsets of format fields 0, 1, 3, 4, 5 and 6 |
| CdbBlocks.NodeLinesRun | io_mesh_cdb/import_cdb.py:228-254 | a run of node data lines is the same as storing each of them in turn and carrying on after the run |
| CdbBlocks.NodeBlockRun | io_mesh_cdb/import_cdb.py:228-231 | after a run of data lines, a line starting with `N` or the end of input ends the block with those nodes stored; a blank line raises |
| CdbBlocks.NodeLinesAdvance | io_mesh_cdb/import_cdb.py:228-231 | the node block never moves the cursor backwards |
| CdbBlocks.StoreAllOthers | io_mesh_cdb/import_cdb.py:238-254 | a node number that no line of the run defines keeps its old point, or stays absent |
| CdbBlocks.StoreAllLast | io_mesh_cdb/import_cdb.py:254 | a node defined more than once gets the point of its last line |
| CdbBlocks.StoreAllKeys | io_mesh_cdb/import_cdb.py:238-254 | after the run, a node number is present exactly when it was before or some line defines it |
| CdbBlocks.NBlockOnlyNodes | io_mesh_cdb/import_cdb.py:208-254 | `NBLOCK` changes only the node table and moves forward |
| CdbBlocks.SolidScanSpec | io_mesh_cdb/import_cdb.py:318-327 | after i steps, the SOLID field loop holds i fields; each one reads its column when that parses and otherwise repeats the previous value of `field`; it fails only when the very first field has no value |
| CdbBlocks.SolidStepColumn | io_mesh_cdb/import_cdb.py:320-327 | one step of the SOLID loop appends one field, read by the same rule, and moves to the next column |
| CdbBlocks.PlainScanSucceeds | io_mesh_cdb/import_cdb.py:352-361 | the non-SOLID field loop reads i fields exactly when all of the first i columns lie in the format and parse |
| CdbBlocks.PlainScanStart | io_mesh_cdb/import_cdb.py:352-361 | after i steps the loop holds i fields and stands at the offset of field i |
| CdbBlocks.PlainScanFields | io_mesh_cdb/import_cdb.py:352-361 | each field the non-SOLID loop reads is the value of its own column |
| CdbBlocks.PlainAtEnd | io_mesh_cdb/import_cdb.py:351-368 | a non-SOLID record read at the end of input ends the block |
| CdbBlocks.SolidLinesValid | io_mesh_cdb/import_cdb.py:292-372 | the SOLID records keep the element table well formed and move forward |
| CdbBlocks.PlainLinesValid | io_mesh_cdb/import_cdb.py:292-372 | the non-SOLID records keep the element table well formed and move forward |
| CdbBlocks.EBlockOnlyElements | io_mesh_cdb/import_cdb.py:256-372 | `EBLOCK` changes only the element table, keeps it well formed and moves forward |
| CdbReader.OneLineValid | io_mesh_cdb/import_cdb.py:48-64 | every one-line command keeps the tables well formed |
| CdbReader.OtherLinesIgnored | io_mesh_cdb/import_cdb.py:48-64 | a line whose first word is no command leaves everything unchanged |
| CdbReader.CommandAdvances | io_mesh_cdb/import_cdb.py:40-64 | a command keeps the tables well formed and never moves the cursor back |
| CdbReader.CommandsValid | io_mesh_cdb/import_cdb.py:444-451 | the main loop keeps the tables well formed |
| CdbReader.ReadMeshValid | io_mesh_cdb/import_cdb.py:27-451 | whatever `read3DMesh` returns is well formed: each element and type number is listed once |
| CdbReader.SkipOtherLine | io_mesh_cdb/import_cdb.py:444-448 | the main loop steps over a line that is no command |
| CdbReader.CommandsAtEnd | io_mesh_cdb/import_cdb.py:444-451 | a command that fails stops the main loop with its fault, and at the end of input the tables are returned |
| CdbReader.Reader.constructor | io_mesh_cdb/import_cdb.py:31-38 | the reader starts at line 0 with empty tables and every selector at 1 |
| CdbReader.Reader.ReadLine | io_mesh_cdb/import_cdb.py:445 | `readline()` returns the current line, or `""` past the end, and moves on by one line at most |
| CdbReader.Reader.ReadN | io_mesh_cdb/import_cdb.py:66-108 | the new state is the `N` handler applied to the old one |
| CdbReader.Reader.ReadEN | io_mesh_cdb/import_cdb.py:110-166 | the new state is the `EN` handler applied to the old one |
| CdbReader.Reader.ReadENNodes | io_mesh_cdb/import_cdb.py:157-166 | the node loop of `EN,,NODE` ends in the handler's state |
| CdbReader.Reader.ReadET | io_mesh_cdb/import_cdb.py:374-399 | the new state is the repaired `ET` handler applied to the old one |
| CdbReader.Reader.ReadSelector | io_mesh_cdb/import_cdb.py:401-441 | `TYPE`, `MAT` and `REAL` end in their handlers' states |
| CdbReader.Reader.ReadNBLOCK | io_mesh_cdb/import_cdb.py:208-254 | the node block ends in the state, cursor or fault that the block function gives |
| CdbReader.Reader.ReadEBLOCK | io_mesh_cdb/import_cdb.py:256-372 | the element block ends in the state, cursor or fault that the block function gives |
| CdbReader.Reader.ReadElementLines | io_mesh_cdb/import_cdb.py:292-372 | the record loop stores what the record function says, or stops with its fault |
| CdbReader.Reader.ParseCommand | io_mesh_cdb/import_cdb.py:40-64 | `parseCommand` ends in the state, cursor or fault of the command function |
| CdbReader.Reader.Run | io_mesh_cdb/import_cdb.py:444-449 | the main loop ends with the tables the command sequence gives, or with its fault |
| CdbReader.SplitTokens | io_mesh_cdb/import_cdb.py:44-46 | the tokenizing loop gives the stripped, lower-cased comma pieces |
| CdbReader.ReadNodeLine | io_mesh_cdb/import_cdb.py:238-254 | one node line stores what the node function says |
| CdbReader.ReadNodeNumbers | io_mesh_cdb/import_cdb.py:161-165 | the node-number loop reads all tokens as integers, or gives None at the first that fails |
| CdbReader.ScanSolidFields | io_mesh_cdb/import_cdb.py:318-327 | the SOLID field loop computes the scan function |
| CdbReader.ReadSolidField | io_mesh_cdb/import_cdb.py:321-327 | one SOLID field is one step of the scan |
| CdbReader.ReadSolidRecord | io_mesh_cdb/import_cdb.py:317-350 | one SOLID record gives the record and the final `field` of the record function |
| CdbReader.ScanPlainFields | io_mesh_cdb/import_cdb.py:352-361 | the non-SOLID field loop computes the scan function |
| CdbReader.ReadPlainField | io_mesh_cdb/import_cdb.py:355-361 | one non-SOLID field is one step of the scan |
| CdbReader.ReadPlainRecord | io_mesh_cdb/import_cdb.py:351-368 | one non-SOLID record gives what the record function says |
| CdbReader.SolidScanFailureSticks | io_mesh_cdb/import_cdb.py:326 | once the SOLID loop has failed, further fields do not recover it |
| CdbReader.PlainScanFailureSticks | io_mesh_cdb/import_cdb.py:359-361 | once the non-SOLID loop has returned, further fields do not recover it |
| CdbReader.Read3DMesh | io_mesh_cdb/import_cdb.py:27-451 | the reader's result is the command sequence applied from the initial tables |
| Faces.MinIndex | io_mesh_cdb/import_cdb.py:487-490 | the position found lies inside the face |
| Faces.MinIndexSpec | io_mesh_cdb/import_cdb.py:487-490 | the position holds a smallest node, and no earlier node is as small: it is the first minimum |
| Faces.OrderFaceIsRotation | io_mesh_cdb/import_cdb.py:481-497 | `order_face` is the rotation that starts at the first smallest node: same length, same nodes, the smallest first, cyclic order kept |
| Faces.RotateMultiset | io_mesh_cdb/import_cdb.py:492-496 | a rotation keeps the nodes |
| Faces.MinIndexUnique | io_mesh_cdb/import_cdb.py:487-490 | with distinct nodes, the smallest one's position is the only answer |
| Faces.RotateRotate | io_mesh_cdb/import_cdb.py:492-496 | rotating by k and then by j is rotating by k + j modulo the length |
| Faces.RotateDistinct | io_mesh_cdb/import_cdb.py:492-496 | a rotation of distinct nodes has distinct nodes |
| Faces.OrderFaceCanonical | io_mesh_cdb/import_cdb.py:481-497 | every rotation of a face with distinct nodes orders to the same face |
| Faces.InverseFaceInvolution | io_mesh_cdb/import_cdb.py:499-509 | `inverse_face` keeps the first node, reverses the rest, and undoes itself |
| Faces.InverseOfShortFace | io_mesh_cdb/import_cdb.py:499-509 | a face of at most two nodes is its own inverse |
| Faces.OrderFaceMembers | io_mesh_cdb/import_cdb.py:481-497 | ordering brings in no new nodes |
| Faces.OrderFaceScan | io_mesh_cdb/import_cdb.py:485-497 | the two loops of `order_face` compute the ordered face |
| Faces.InverseFaceScan | io_mesh_cdb/import_cdb.py:504-509 | the loop of `inverse_face` computes the inverse |
| FaceTables.FaceWithin | io_mesh_cdb/import_cdb.py:481-497 | an ordered face only uses nodes from the list the raw face came from |
| FaceTables.Hex8Nodes | io_mesh_cdb/import_cdb.py:511-521 | the faces of an 8-node hexahedron use only its corners |
| FaceTables.Wedge6Nodes | io_mesh_cdb/import_cdb.py:523-532 | the faces of a 6-node wedge use only its corners |
| FaceTables.Pyramid5Nodes | io_mesh_cdb/import_cdb.py:534-543 | the faces of a 5-node pyramid use only its corners |
| FaceTables.Tet4Nodes | io_mesh_cdb/import_cdb.py:545-553 | the faces of a 4-node tetrahedron use only its corners |
| FaceTables.Hex20Nodes | io_mesh_cdb/import_cdb.py:555-565 | the faces of a 20-node hexahedron use only its nodes |
| FaceTables.Wedge15Nodes | io_mesh_cdb/import_cdb.py:567-576 | the faces of a 15-node wedge, with the node names repaired, use only its nodes |
| FaceTables.Pyramid13Nodes | io_mesh_cdb/import_cdb.py:578-587 | the faces of a 13-node pyramid use only its nodes |
| FaceTables.Tet10Nodes | io_mesh_cdb/import_cdb.py:589-597 | the faces of a 10-node tetrahedron use only its nodes |
| FaceTables.Rect4Nodes | io_mesh_cdb/import_cdb.py:599-603 | a 4-node quadrilateral's face uses only its corners |
| FaceTables.Tri3Nodes | io_mesh_cdb/import_cdb.py:605-609 | a 3-node triangle's face uses only its corners |
| FaceTables.Rect8Nodes | io_mesh_cdb/import_cdb.py:611-615 | an 8-node quadrilateral's face uses only its nodes |
| FaceTables.Tri6Nodes | io_mesh_cdb/import_cdb.py:617-621 | a 6-node triangle's face uses only its nodes |
| FaceExtraction.ElementSkipped | io_mesh_cdb/import_cdb.py:627-683 | an element yields no faces exactly when it has no type, its type is not in the table, its family is unknown, or its tuple is too short for that family |
| FaceExtraction.ElementFacesOwnNodes | io_mesh_cdb/import_cdb.py:623-683 | every face the repaired dispatch gives to an element uses only that element's nodes |
| FaceExtraction.ShellOwnNodes | io_mesh_cdb/import_cdb.py:633-640 | the faces of a 4-node shell use only its nodes |
| FaceExtraction.MidsideShellOwnNodes | io_mesh_cdb/import_cdb.py:642-649 | the faces of an 8-node shell, using `v14` in the triangle, use only its nodes |
| FaceExtraction.Corner8OwnNodes | io_mesh_cdb/import_cdb.py:651-662 | the faces of an 8-node solid, for all four shapes, use only its nodes |
| FaceExtraction.Midside20OwnNodes | io_mesh_cdb/import_cdb.py:664-675 | the faces of a 20-node solid, for all four shapes, use only its nodes |
| FaceExtraction.AsWrittenAgrees | io_mesh_cdb/import_cdb.py:623-683 | away from the three defects (the degenerate 8-node shell, the degenerate wedge and tetrahedron tests), the code as written gives the same faces as the repaired dispatch |
| FaceExtraction.CountFacesValid | io_mesh_cdb/import_cdb.py:690-695 | counting faces keeps the face counter well formed |
| FaceExtraction.CountFacesCounts | io_mesh_cdb/import_cdb.py:690-695 | after counting, each face's count has grown by how often it occurs in the list |
| FaceExtraction.CountFacesKeys | io_mesh_cdb/import_cdb.py:690-695 | after counting, the counted faces are the old ones plus those of the list |
| FaceExtraction.CountFacesSpec | io_mesh_cdb/import_cdb.py:690-695 | the counter stays valid, every count grows by the face's multiplicity, and the keys grow by the faces of the list |
| FaceExtraction.AddElementSpec | io_mesh_cdb/import_cdb.py:627-695 | after one element, a (material, real) group is present exactly when it was before or the element yields faces in it |
| FaceExtraction.CountAllGroups | io_mesh_cdb/import_cdb.py:623-695 | `get_all_faces` has a counter for a group exactly when some element yields faces in it, and every counter is valid |
| FaceExtraction.OuterMembers | io_mesh_cdb/import_cdb.py:704-706 | a face is kept exactly when it is listed and is outer |
| FaceExtraction.OuterDistinct | io_mesh_cdb/import_cdb.py:703-706 | the kept faces are listed once each |
| FaceExtraction.OuterSpec | io_mesh_cdb/import_cdb.py:697-706 | a group's outer faces are exactly its counted faces whose reverse was never counted (and, with duplicate removal, that occur once), each listed once |
| FaceExtraction.SelfInverseNeverOuter | io_mesh_cdb/import_cdb.py:705 | a face equal to its own reverse is never outer |
| FaceExtraction.SharedFaceNotOuter | io_mesh_cdb/import_cdb.py:705 | when a face and its reverse both occur, neither is outer |
| FaceExtraction.RemoveDuplicatesShrinks | io_mesh_cdb/import_cdb.py:705 | removing duplicates keeps only faces that are outer without it |
| FaceExtraction.OuterFacesGroups | io_mesh_cdb/import_cdb.py:702-706 | `get_outer_faces` keeps the groups in order, and each holds the outer faces of its counter |
| FaceExtraction.CountEach | io_mesh_cdb/import_cdb.py:690-695 | the counting loop computes the counting function |
| FaceExtraction.AddElementFaces | io_mesh_cdb/import_cdb.py:685-695 | one element's pass adds what the element function says |
| FaceExtraction.GetAllFaces | io_mesh_cdb/import_cdb.py:623-695 | the loop over the element table, in insertion order, computes the counters of all elements |
| FaceExtraction.GroupOuterFaces | io_mesh_cdb/import_cdb.py:703-706 | the loop over one group's counter computes its outer faces |
| FaceExtraction.GetOuterFaces | io_mesh_cdb/import_cdb.py:697-706 | the loop over the groups computes the outer faces of each |
| FaceExtraction.GetFaces | io_mesh_cdb/import_cdb.py:455-711 | `get_faces` is counting followed by outer-face selection |
| Renumbering.FirstSeenSpec | io_mesh_cdb/import_cdb.py:731-735 | the first-use list holds each point used exactly once |
| Renumbering.VisitSpec | io_mesh_cdb/import_cdb.py:730-736 | visiting a known node gives the index of its point, adding the point only if it is new |
| Renumbering.RenumberFaceOk | io_mesh_cdb/import_cdb.py:729-736 | a face renumbers exactly when all its nodes are in the node table |
| Renumbering.RenumberFaceSpec | io_mesh_cdb/import_cdb.py:728-738 | a renumbered face has one index per node, and each index points at that node's point |
| Renumbering.RenumberFacesOk | io_mesh_cdb/import_cdb.py:727-738 | a face list renumbers exactly when every node of every face is known |
| Renumbering.RenumberFacesSpec | io_mesh_cdb/import_cdb.py:727-738 | each renumbered face points at its nodes' points, and the vertex list is the points in first-use order |
| Renumbering.RenumberGroupSpec | io_mesh_cdb/import_cdb.py:722-738 | a group renumbers exactly when its nodes are known; then it has as many faces, each the same length, every index points at its node's point, and the vertices are the points in first-use order |
| Renumbering.SharedIndex | io_mesh_cdb/import_cdb.py:731-734 | two corners get the same index exactly when their nodes have the same point |
| Renumbering.RenumberGroupOk | io_mesh_cdb/import_cdb.py:722-738 | a group fails exactly when one of its nodes is missing |
| Renumbering.CollectSpec | io_mesh_cdb/import_cdb.py:720-738 | each group's mesh is stored under its key |
| Renumbering.RenumberAllOk | io_mesh_cdb/import_cdb.py:715-740 | `renumber` succeeds exactly when every group's nodes are all known |
| Renumbering.RenumberAllSpec | io_mesh_cdb/import_cdb.py:715-740 | the result keeps the group order, and each group's mesh is that group renumbered on its own |
| Renumbering.RenumberFaceLoop | io_mesh_cdb/import_cdb.py:728-736 | the node loop of one face computes the face function and keeps `index_number` equal to the vertex count |
| Renumbering.RenumberGroupLoop | io_mesh_cdb/import_cdb.py:723-738 | the face loop of one group computes the group function |
| Renumbering.RenumberNext | io_mesh_cdb/import_cdb.py:722-738 | one group's pass either has the fault of the whole renumbering or stores the group's mesh |
| Renumbering.Renumber | io_mesh_cdb/import_cdb.py:715-740 | the loop over the groups computes the renumbering, faults included |
| CdbWriter.ShellOfSpec | io_mesh_cdb/export_cdb.py:110-123 | exactly faces of three, four, six or eight nodes are written; up to four nodes gives type 1 with four nodes, otherwise type 2 with eight; exactly the face's nodes are used; a quadrilateral keeps its order |
| CdbWriter.ObjectRecordsSpec | io_mesh_cdb/export_cdb.py:105-130 | one object gives one record per writable face, numbered on from the first number, with the object's material and real constant |
| CdbWriter.RecordsCount | io_mesh_cdb/export_cdb.py:108-135 | there is one record per writable face of all objects |
| CdbWriter.RecordsNumbered | io_mesh_cdb/export_cdb.py:105-130 | record k has number first + k: the numbers are consecutive |
| CdbWriter.RecordsAppendObject | io_mesh_cdb/export_cdb.py:106-135 | one more object adds its records after the others, numbered on, with material and real constant stepped once per earlier object when their flags are set |
| CdbWriter.ShellCountBound | io_mesh_cdb/export_cdb.py:108-123 | an object has at most one record per face, and exactly one exactly when all its faces are writable |
| CdbWriter.TotalShellsBound | io_mesh_cdb/export_cdb.py:100-123 | the records number at most the faces, and equal them exactly when every face is writable |
| CdbWriter.HeaderCount | io_mesh_cdb/export_cdb.py:100-103 | the element block as written differs from the repaired one at most in its header, and equals it exactly when every face is writable |
| CdbWriter.RepairedElementBlock | io_mesh_cdb/export_cdb.py:100-103 | the repaired header announces exactly as many records as lie between the format line and `-1,` |
| CdbWriter.PentagonBlock | io_mesh_cdb/export_cdb.py:100-103 | as written, a lone pentagon gives `EBLOCK,19,SOLID,1` and no record; repaired, the header says 0 |
| CdbWriter.PentagonCounted | io_mesh_cdb/export_cdb.py:100-103 | a single pentagon is counted in the header but gets no record |
| CdbWriter.CommandNumber | io_mesh_cdb/export_cdb.py:103 | two `EBLOCK` commands are the same text only when they carry the same count |
| CdbWriter.CdbFile.constructor | io_mesh_cdb/export_cdb.py:150 | a newly opened file is empty |
| CdbWriter.CdbFile.Write | io_mesh_cdb/export_cdb.py:79 | `write` appends its text to the file |
| CdbWriter.WriteHeader | io_mesh_cdb/export_cdb.py:75-79 | appends `/PREP7` and `/TITLE,` |
| CdbWriter.WriteET | io_mesh_cdb/export_cdb.py:81-85 | appends `ET,1,63` and `ET,2,93` |
| CdbWriter.WriteNBLOCK | io_mesh_cdb/export_cdb.py:87-94 | appends the block command, the format line, one line per node in table order, and the terminator |
| CdbWriter.WriteNodeLines | io_mesh_cdb/export_cdb.py:92-93 | the node loop appends one node line per key, in order |
| CdbWriter.WriteRecord | io_mesh_cdb/export_cdb.py:124-129 | appends the record's eight-column fields and a newline, splitting eight-node records after field 15 |
| CdbWriter.WriteObject | io_mesh_cdb/export_cdb.py:109-130 | the face loop of one object appends its records and returns the next element number |
| CdbWriter.WriteObjectAndStep | io_mesh_cdb/export_cdb.py:108-135 | one object's pass appends its records and steps the material and real constant when their flags are set |
| CdbWriter.WriteObjects | io_mesh_cdb/export_cdb.py:105-135 | the object loop appends the records of all objects, numbered from 1 |
| CdbWriter.CountFaces | io_mesh_cdb/export_cdb.py:100-102 | the count loop adds up the faces of every object, written or skipped, which is never fewer than the records written |
| CdbWriter.WriteEBLOCK | io_mesh_cdb/export_cdb.py:96-137 | appends the block command with the number of faces, the `(19i8)` line, one record per writable face, and `-1,` |
| CdbWriter.WriteFINISH | io_mesh_cdb/export_cdb.py:140-145 | appends `FINISH` |
| CdbWriter.WriteCdb | io_mesh_cdb/export_cdb.py:148-156 | the file is header, types, node block, element block and finish, in that order |
| CdbRoundTrip.ElementFormat | io_mesh_cdb/export_cdb.py:103 | the element format line the writer emits describes nineteen fields of width eight |
| CdbRoundTrip.OffsetEight | io_mesh_cdb/import_cdb.py:322 | in such a format, field j starts at column 8j |
| CdbRoundTrip.ColsColumn | io_mesh_cdb/export_cdb.py:124-127 | field j of the written record text is the `%8i` text of value j |
| CdbRoundTrip.LeadsWithNumber | io_mesh_cdb/import_cdb.py:294 | a line that starts with a `%8i` field starts, once stripped, with `-` when that value is negative and with a digit otherwise |
| CdbRoundTrip.FieldsFit | io_mesh_cdb/export_cdb.py:124-127 | every field of a readable record fits its eight columns |
| CdbRoundTrip.WrittenColumn | io_mesh_cdb/export_cdb.py:124-127 | each written column parses back as its value |
| CdbRoundTrip.PastColumn | io_mesh_cdb/import_cdb.py:323-325 | a column past the end of a four-node record does not parse |
| CdbRoundTrip.RecordColumn | io_mesh_cdb/import_cdb.py:320-327 | each of the nineteen columns gives the value the SOLID loop reads: the written value, or the last node repeated past the end of a short record |
| CdbRoundTrip.RecordNotEnd | io_mesh_cdb/import_cdb.py:294 | a written record is never taken for the block terminator |
| CdbRoundTrip.RecordScan | io_mesh_cdb/import_cdb.py:320-327 | the SOLID loop reads the nineteen fields of a written record |
| CdbRoundTrip.SolidRecordOf | io_mesh_cdb/import_cdb.py:329-350 | nineteen fields whose node count is four or eight are stored under field 11 as [mat, real, type] plus the nodes |
| CdbRoundTrip.FieldsElement | io_mesh_cdb/import_cdb.py:344-348 | the fields read from a record carry its node count, number and last node, and form the element the writer described |
| CdbRoundTrip.RecordReadBack | io_mesh_cdb/import_cdb.py:317-350 | a written 4- or 8-node record, read through a `(19i8)` layout, is stored as its element (material, real constant, type and nodes, a short record's last node repeated) under its number |
| CdbRoundTrip.NodeFormat | io_mesh_cdb/import_cdb.py:220-226 | the node format line the writer emits gives the columns of the node number and of x, y and z |
| CdbRoundTrip.NodeLineReadBack | io_mesh_cdb/export_cdb.py:93 | a written node line is node data, its number reads back, and its coordinates read back as `float()` of their written text |
| CdbRoundTrip.BlockEnds | io_mesh_cdb/export_cdb.py:94-137 | the terminators the writer emits, `N,R5.3,LOC,-1,` and `-1,`, meet the reader's stop tests for the node block (import_cdb.py line 230) and the element block (line 294) |
| CdbRoundTrip.StoreRecordsValid | io_mesh_cdb/import_cdb.py:372 | storing records keeps the element table well formed |
| CdbRoundTrip.StoreRecordsFresh | io_mesh_cdb/import_cdb.py:372 | storing records with new, distinct numbers appends those numbers, stores each record's element, and keeps every earlier element |
| CdbRoundTrip.RecordStep | io_mesh_cdb/import_cdb.py:292-372 | a record line makes the SOLID loop store its element and go on with the next line |
| CdbRoundTrip.SolidLinesAtEnd | io_mesh_cdb/import_cdb.py:294-295 | the terminator ends the SOLID records with the table unchanged |
| CdbRoundTrip.StepsReadBack | io_mesh_cdb/import_cdb.py:292-372 | a run of records followed by the terminator stores all of them in order |
| CdbRoundTrip.SolidLinesReadBack | io_mesh_cdb/import_cdb.py:292-372 | written records followed by `-1,` read back as those records stored in order, and reading continues after the terminator |
| CdbRoundTrip.SplitElementCommand | io_mesh_cdb/export_cdb.py:103 | the written `EBLOCK` command splits into `EBLOCK`, `19`, `SOLID` and the count |
| CdbRoundTrip.ElementCommandTokens | io_mesh_cdb/export_cdb.py:103 | whatever the count, the written command tokenizes as `eblock`, 19 fields, `solid` |
| CdbRoundTrip.EBlockSolid | io_mesh_cdb/import_cdb.py:277-290 | a SOLID `EBLOCK` whose field count matches an eight-column format reads its records from the line after the format |
| CdbRoundTrip.ElementBlockReadBack | io_mesh_cdb/import_cdb.py:256-372 | the whole written element block (command, format line, records, terminator) is read back as exactly those records added to the element table, and reading goes on after the block |
| CdbRoundTrip.StoreAllDistinct | io_mesh_cdb/import_cdb.py:254 | node lines with distinct numbers store exactly their points over the old table |
| CdbRoundTrip.NodeLinesReadBack | io_mesh_cdb/export_cdb.py:92-93 | every written node line is data and reads back as its number and re-read point |
| CdbRoundTrip.NodeDataReadBack | io_mesh_cdb/import_cdb.py:238-254 | storing the written node lines adds the re-read points of all nodes |
| CdbRoundTrip.NBlockOf | io_mesh_cdb/import_cdb.py:220-226 | `NBLOCK` reads its nodes with the columns of its format line |
| CdbRoundTrip.NodeLinesToEnd | io_mesh_cdb/import_cdb.py:228-231 | data lines up to a terminator are all stored, and reading goes on after it |
| CdbRoundTrip.NodeRunData | io_mesh_cdb/export_cdb.py:92-93 | the written node lines are all data, and storing them adds the re-read points |
| CdbRoundTrip.NodeRunReadBack | io_mesh_cdb/import_cdb.py:228-254 | the written node lines and terminator read back as the re-read nodes |
| CdbRoundTrip.NodeBlockReadBack | io_mesh_cdb/import_cdb.py:208-254 | the whole written node block (format line, node lines, terminator) is read back as the written nodes, each coordinate re-read by `float()`, and reading goes on after the block |
| FaceExtraction.MidsideShellUnbound | io_mesh_cdb/import_cdb.py:646-647 | as written, a degenerate 8-node shell before any tetrahedron raises; repaired, it yields its 6-node triangle |
| FaceExtraction.MidsideShellStale | io_mesh_cdb/import_cdb.py:646-647 | as written, after a 10-node tetrahedron the shell's triangle takes node 7 from that earlier element, a node the shell does not have |
| FaceExtraction.Midside20Wedge | io_mesh_cdb/import_cdb.py:669 | as written, a degenerate 20-node wedge raises on the undefined node names |
| FaceExtraction.Midside20WedgeRepaired | io_mesh_cdb/import_cdb.py:567-576 | every degenerate 20-node wedge raises as written; repaired, it yields the five faces of the 15-node wedge |
| FaceExtraction.TetrahedronUnreachable | io_mesh_cdb/import_cdb.py:655-660 | as written, a tetrahedron-shaped 8-node solid takes the wedge branch and never yields the tetrahedron's faces |
| FaceExtraction.DegenerateTetrahedron | io_mesh_cdb/import_cdb.py:659-660 | repaired, a tetrahedron-shaped 8-node solid yields the four triangles of the tetrahedron |
| FaceExtraction.DegenerateWedgeFace | io_mesh_cdb/import_cdb.py:655-656 | as written, the example tetrahedron yields the faces of a wedge with collapsed nodes |
| FaceExtraction.DegenerateTriangle | io_mesh_cdb/import_cdb.py:523-532 | one of those faces is the triangle `[4, 4, 4]`, all of one node |

## Left out

- The Blender side is not part of this model: `__init__.py`, `readMesh`, `addMeshObjs`, `read` (import_cdb.py:744-796) and `processSelectedObjs` (export_cdb.py:21-64). The writer takes its input as a node table and a list of objects' faces.
- Files are not opened or closed. The input is a sequence of lines. The output is the text field of a `CdbFile`.
- Floating point is not modelled. Coordinates have an opaque type. `float()` and `%16.9g` are parameters (`parseFloat`, `formatCoord`).
- Python's `int()` is modelled for white space, an optional sign and ASCII digits. Underscores and non-ASCII digits are left out. `lower()` handles ASCII only.
- CdbFormat.DetectFormat, CdbFormat.ScanGroup: `str.isdigit()` (import_cdb.py:188, 190) is modelled as the ASCII digit test; other Unicode digits such as `²`, which Python also counts, are left out.
- The two endless loops are fault values, not repaired behaviour. One is the SOLID continuation of more nodes than one line holds. The other is stopping at the end of the input inside a SOLID block.
- The outer faces of a group form a sequence in first-counted order. Python iterates sets in an unspecified order.
- FaceExtraction.GetFaces, FaceExtraction.GetAllFaces: face extraction runs the repaired dispatch (`ElementFaces`), not the code as written at import_cdb.py:646-669. It tests for a tetrahedron before a wedge, so a tetrahedron-shaped 8- or 20-node solid gets tetrahedron faces where the source gives wedge faces or raises. The degenerate 8-node shell uses its own `v14` where the source raises UnboundLocalError or takes a stale `v13`. A degenerate 20-node wedge gets its fifteen-node faces, which are counted, where the source raises NameError. The as-written dispatch is kept beside it as `ElementFacesAsWritten` and compared with it (see Findings).
- The reader runs the repaired `ET` and `EN` handlers. The as-written versions are kept beside them and compared with them (see Findings).
- CdbRoundTrip.RecordReadBack: the record must be readable: 4 or 8 nodes, every field fitting eight columns, and a material that is not negative. A negative first field makes the line look like the `-1,` terminator.
- CdbRoundTrip.NodeBlockReadBack: this is a block-level round trip. Each coordinate reads back as `float()` of its `%16.9g` text, not as the original float. Reading back a whole written file, command by command, is not proved.
- CdbRoundTrip.ElementBlockReadBack: the element block is read back from its format line on. Which table it goes into also depends on the `ET` lines and the node block written before it, and that composition is not proved.

## Findings

| source | as written | input that shows it | evidently intended | confidence | as-written member | corrected member |
|---|---|---|---|---|---|---|
| io_mesh_cdb/import_cdb.py:385-397 | `ET` with an empty type number computes the default number but never assigns `et_type`, so the assignment at 397 raises an unbound-local error | the line `ET,,186` | the default number is `max + 1`, and the type gets the family from token 2 | not executed | CdbCommands.ETDefaultNumbers | CdbCommands.ETDefaultTwice |
| io_mesh_cdb/import_cdb.py:646-647 | the triangle of a degenerate 8-node shell uses `v13`, which this branch never sets: it raises, or takes a node left over from an earlier 10-node tetrahedron | element `[1, 1, 7, 10, 20, 30, 30, 40, 50, 60, 70]` with type 7 as family 93 | the closing mid-side node is the shell's own `v14` | not executed | FaceExtraction.MidsideShellStale | FaceExtraction.ElementFacesOwnNodes |
| io_mesh_cdb/import_cdb.py:567-576 | `faces_on_15wedge` uses the undefined names `v32`, `v21`, `v54` and `v41`, and line 669 throws the result away | a 20-node element of family 186 collapsed to a wedge | the wedge's faces come from its fifteen nodes and are counted | not executed | FaceExtraction.Midside20Wedge | FaceExtraction.Midside20WedgeRepaired |
| io_mesh_cdb/import_cdb.py:655-660 | the wedge test comes first and also matches every tetrahedron, so the tetrahedron branch is dead and a tetrahedron gets wedge faces with collapsed nodes; the 20-node branch (668-673) has the same order | an 8-node element of family 185 whose nodes 3 and 4 match and whose nodes 5 to 8 match | a tetrahedron-shaped element yields the four triangles of a tetrahedron | not executed | FaceExtraction.TetrahedronUnreachable | FaceExtraction.DegenerateTetrahedron |
| io_mesh_cdb/import_cdb.py:125-166 | `readEN` declares only `current_element` global, so it reads `current_mat`, `current_real` and `current_type` from `read3DMesh`'s locals (lines 36-38); these stay 1 because `readMAT`, `readTYPE`, `readREAL` and `readET` assign module-level variables of the same names (lines 398-439): `MAT` and the others have no effect, and `EN` before any numbered `ATTR` raises NameError | `MAT,5` then `EN,R5.5,ATTR,0,,,,,,7` | `EN` uses the selectors that `MAT`, `TYPE`, `REAL` and `ET` set | not executed | CdbCommands.MaterialIgnored | CdbCommands.ENAttrReplaces |
| io_mesh_cdb/export_cdb.py:100-103 | the `EBLOCK` header counts every face, including the faces that are skipped because they have 5, 7 or more than 8 nodes | one object whose only face is `[1, 2, 3, 4, 5]` | the header gives the number of records written | not executed | CdbWriter.PentagonBlock | CdbWriter.RepairedElementBlock |
