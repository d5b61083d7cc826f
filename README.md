# Sacado FAD views and the Teuchos YAML parameter-list codec, in Dafny

This project models two parts of Trilinos and proves properties of the models.

**Sacado's Kokkos view specialisation for FAD types** (`KokkosExp_View_Fad.hpp`).
A view of forward-mode automatic-differentiation (FAD) values is stored as a
view of base scalars with one extra, hidden axis. That axis holds the value and
the derivative components of each element. The model covers:

- the data-type analysis that picks the flattened scalar array type;
- `dimension_scalar` over one view and over several;
- the `CommonViewAllocProp` that lets a new view be sized after its siblings,
  and the layout it appends the FAD dimension to;
- the internal `ViewMapping` class: its fields (handle, offset, FAD size, FAD
  stride), its queries, its constructors and `allocate_shared`;
- assignment from a FAD view to a FAD view or to an ordinary view;
- subviews.

Kokkos' own `ViewOffset` is not part of this model. It is stood in for by a
datatype with explicit extents and strides (`ViewOffset` module).

**The YAML reader and writer of Teuchos parameter lists**
(`Teuchos_YamlParser.cpp`). The model covers:

- the reader's semantic actions. These turn scalars, sequences and maps into
  parameter entries, arrays, 2-D arrays and lists;
- the number recognisers behind them (`is_parseable_as`, `parse_as`,
  `canBeParsedAs`), stated over the characters `std::istream` accepts;
- the writer: `writeYamlStream`, `writeParameterList`, `writeParameter`,
  `writeYamlTwoDArray`, `generalWriteString` and quoting. It is a class over
  the text written so far, and each method is proved against a function that
  gives the text it appends;
- round trips: what the writer writes, the reader's actions read back;
- the file-name rule of `convertXmlToYaml`.

Modules, one per file: `Wrappers` (Option/Result), `ViewOffset`, `FadTraits`,
`FadMapping`, `YamlValues` (entries, parameter lists, 2-D arrays), `YamlNumbers`,
`YamlReader`, `YamlWriter`, `YamlFlow` (splitting a flow sequence's text into
items), `YamlRoundTrip`, `YamlConvert`.

## Model

| member | source | states |
|---|---|---|
| ViewOffset.Convert | packages/sacado/src/KokkosExp_View_Fad.hpp:1098 | An offset rebuilt as the same layout kind or as LayoutStride keeps its extents and gives every index tuple the same linear offset. |
| ViewOffset.FromLayout | packages/sacado/src/KokkosExp_View_Fad.hpp:872-873 | The unpadded offset built from a layout has the layout's kind, one extent per axis taken from the layout (a static last extent overriding it), and the layout's strides: compact row- or column-major strides for LayoutRight/LayoutLeft, the given strides for LayoutStride. |
| ViewOffset.LayoutDims | packages/sacado/src/KokkosExp_View_Fad.hpp:673-681 | The offset's extents are the layout's, except that a static last extent overrides the layout's value. |
| ViewOffset.OffsetBelowSpan | packages/sacado/src/KokkosExp_View_Fad.hpp:766-767 | Every in-range index tuple lands strictly below the span, whatever the layout. |
| ViewOffset.RightShapedInjective | packages/sacado/src/KokkosExp_View_Fad.hpp:779-841 | In a row-major offset, two in-range index tuples with the same linear offset are equal. |
| ViewOffset.LeftShapedInjective | packages/sacado/src/KokkosExp_View_Fad.hpp:779-841 | The same for a column-major offset. |
| ViewOffset.RightSpanIsProduct | packages/sacado/src/KokkosExp_View_Fad.hpp:845-851 | With compact row-major strides, the last element's offset plus one is the product of the extents. |
| ViewOffset.LeftSpanIsProduct | packages/sacado/src/KokkosExp_View_Fad.hpp:845-851 | The same with compact column-major strides. |
| ViewOffset.CompactLayoutOffset | packages/sacado/src/KokkosExp_View_Fad.hpp:845-851 | An offset built without padding from a LayoutLeft or LayoutRight layout spans exactly the product of its extents, and is column- or row-major shaped. |
| FadTraits.DimensionScalar | packages/sacado/src/KokkosExp_View_Fad.hpp:53-58 | dimension_scalar of one argument is non-zero exactly for a FAD view, and is then its FAD size plus one. |
| FadTraits.DimensionScalarOf | packages/sacado/src/KokkosExp_View_Fad.hpp:483-488 | dimension_scalar of several arguments is their maximum: no argument's value exceeds it, one argument attains it, and it is 0 exactly when there is no FAD view. |
| FadTraits.DimensionScalarIgnoresPlain | packages/sacado/src/KokkosExp_View_Fad.hpp:483-488 | Adding an argument that is not a FAD view, first or last, does not change the result. |
| FadTraits.NoSiblings | packages/sacado/src/KokkosExp_View_Fad.hpp:523-524 | The default property has FAD dimension 0 and is not a view type. |
| FadTraits.FromSiblings | packages/sacado/src/KokkosExp_View_Fad.hpp:528-541 | A property built from sibling views has as FAD dimension the largest sibling dimension_scalar: no sibling exceeds it and one attains it. It is 0 exactly when none is a FAD view. Whether the siblings are views is judged by the first alone. |
| FadTraits.HasCommonViewAllocProp | packages/sacado/src/KokkosExp_View_Fad.hpp:584-602 | The head-then-rest check accepts exactly the packs that hold a CommonViewAllocProp. |
| FadTraits.CommonPropOf | packages/sacado/src/KokkosExp_View_Fad.hpp:614 | The property taken from a pack is its first CommonViewAllocProp. |
| FadTraits.ReturnNewLayoutPlusFad | packages/sacado/src/KokkosExp_View_Fad.hpp:605-622 | Slot `rank` of the layout gets the FAD dimension, or 1 when that is 0. Every other slot, the kind and the strides are kept. |
| FadTraits.AllocationLayout | packages/sacado/src/KokkosExp_View_Fad.hpp:929-936 | allocate_shared appends the FAD dimension only when the pack holds a CommonViewAllocProp of a view type. Otherwise it uses the caller's layout. |
| FadTraits.AllocationFollowsSiblings | packages/sacado/src/KokkosExp_View_Fad.hpp:528-541 | A view allocated with a property built from sibling views gets the largest sibling FAD dimension (at least 1) in its hidden slot. All other slots are the caller's. |
| FadTraits.AppendedExtent | packages/sacado/src/KokkosExp_View_Fad.hpp:673-678 | The hidden axis has the static extent FAD size plus one, or run-time extent (0) when the FAD size is dynamic. |
| FadTraits.FadViewDataAnalysis | packages/sacado/src/KokkosExp_View_Fad.hpp:240-398 | The mapping tag and the flattened scalar array type per layout. An ordinary layout appends the hidden axis. LayoutContiguous prepends it for LayoutLeft and appends it otherwise. LayoutNatural keeps the FAD type and the default mapping. |
| FadTraits.AnalysisShape | packages/sacado/src/KokkosExp_View_Fad.hpp:240-398 | The flattened type has one more axis than the data type, except under LayoutNatural. It keeps the logical extents in order and has the data type's constness. |
| FadTraits.FadStaticStride | packages/sacado/src/KokkosExp_View_Fad.hpp:664-667 | The static stride of the hidden axis is 1 exactly for LayoutRight, and is run-time otherwise. |
| FadMapping.FadOffset | packages/sacado/src/KokkosExp_View_Fad.hpp:673-681 | The internal offset has rank plus one axes. The logical extents are the layout's. A static FAD size fixes the hidden extent to that size plus one. |
| FadMapping.MemorySpan | packages/sacado/src/KokkosExp_View_Fad.hpp:845-851 | memory_span is the product of the unpadded extents times the scalar size for LayoutLeft and LayoutRight. It is 0 exactly when some extent is 0. |
| FadMapping.CompactSpan | packages/sacado/src/KokkosExp_View_Fad.hpp:845-851 | The span of an unpadded LayoutLeft or LayoutRight FAD offset is the product of its extents. |
| FadMapping.FadOffsetShape | packages/sacado/src/KokkosExp_View_Fad.hpp:664-681 | A LayoutRight FAD offset is row-major with hidden stride 1, a LayoutLeft one is column-major, and the span is 0 exactly when an extent is. |
| FadMapping.ComponentAddress | packages/sacado/src/KokkosExp_View_Fad.hpp:779-841 | Base scalar j of an element lies j hidden-axis strides past its scalar 0. |
| FadMapping.FadViewMapping.ScalarArrayType | packages/sacado/src/KokkosExp_View_Fad.hpp:279-287 | The flattened type of the view: base scalars, the view's constness, run-time logical extents and the appended hidden extent. |
| FadMapping.FadViewMapping.Default | packages/sacado/src/KokkosExp_View_Fad.hpp:857 | The default mapping has a null handle and zero extents and strides. Its FAD size and stride are 0 unless fixed statically. |
| FadMapping.FadViewMapping.FromHandle | packages/sacado/src/KokkosExp_View_Fad.hpp:866-906 | Wrapping existing memory: handle and offset come from the arguments. The FAD size is the hidden extent minus one and the FAD stride is the hidden axis' stride. A dynamic hidden extent of 0 is refused. |
| FadMapping.FadViewMapping.Extent | packages/sacado/src/KokkosExp_View_Fad.hpp:697-698 | extent(r) is the offset's extent below the public rank and 1 from it on. The hidden axis is never reported. |
| FadMapping.FadViewMapping.Layout | packages/sacado/src/KokkosExp_View_Fad.hpp:700-711 | layout() reports the logical extents and 0 from the public rank on, the hidden slot included. |
| FadMapping.FadViewMapping.StrideOf | packages/sacado/src/KokkosExp_View_Fad.hpp:741-748 | Every stride_k() of a FAD view reports 0. |
| FadMapping.FadViewMapping.DimensionScalar | packages/sacado/src/KokkosExp_View_Fad.hpp:752-753 | dimension_scalar() is the FAD size plus one, which equals the hidden extent. |
| FadMapping.FadViewMapping.Span | packages/sacado/src/KokkosExp_View_Fad.hpp:766-767 | span() bounds every in-range offset and is 0 exactly when an extent is. |
| FadMapping.FadViewMapping.SpanIsContiguous | packages/sacado/src/KokkosExp_View_Fad.hpp:770-771 | span_is_contiguous() is always false. |
| FadMapping.FadViewMapping.Reference | packages/sacado/src/KokkosExp_View_Fad.hpp:779-841 | reference(i...) points at the handle plus the offset of (i..., 0) and carries the FAD size and stride. |
| FadMapping.FadViewMapping.ReferenceAddresses | packages/sacado/src/KokkosExp_View_Fad.hpp:779-841 | Component j of a referenced element is the scalar at (i..., j). |
| FadMapping.FadViewMapping.ReferencesDisjoint | packages/sacado/src/KokkosExp_View_Fad.hpp:779-841 | Over a row- or column-major offset, the components of in-range elements never share an address. |
| FadMapping.FadViewMapping.AllocateShared | packages/sacado/src/KokkosExp_View_Fad.hpp:914-989 | The new offset, FAD size and stride come from the allocation layout. The record's size is span times scalar size, which is memory_span. The handle is set and values are constructed only for a non-zero size. A dynamic hidden extent of 0 is refused. |
| FadMapping.FadViewMapping.AssignFrom | packages/sacado/src/KokkosExp_View_Fad.hpp:1034-1102 | FAD-to-FAD assignment copies the handle, converts the offset, and copies FAD size and stride, so every element reference is unchanged. |
| FadMapping.FadViewMapping.AssignSubview | packages/sacado/src/KokkosExp_View_Fad.hpp:1213-1238 | A subview's offset keeps the selected axes and the whole hidden axis. Its handle moves to the start offset. FAD size and stride are copied, and every reference is the parent's reference at the expanded index. |
| FadMapping.PlainViewMapping.ScalarArrayType | packages/sacado/src/KokkosExp_View_Fad.hpp:1084-1089 | An ordinary view's array type: run-time extents except a possibly static last one. |
| FadMapping.PlainViewMapping.AssignFromFad | packages/sacado/src/KokkosExp_View_Fad.hpp:1043-1102 | An ordinary view assigned from a FAD view sees each FAD component as an element of its last axis, at the same address. There is no FAD size or stride to copy. |
| FadMapping.SubRankCountsKept | packages/sacado/src/KokkosExp_View_Fad.hpp:1138-1151 | The subview's rank is the number of argument positions holding a range or ALL, the arguments that keep an axis. |
| FadMapping.SubviewLayout | packages/sacado/src/KokkosExp_View_Fad.hpp:1153-1183 | The subview keeps the source layout exactly when it has rank 0, or is a rank-1 LayoutRight subview whose last argument is a range, or is a rank-1 LayoutLeft subview of a rank-1 source (or the source is LayoutStride). Otherwise it is LayoutStride. |
| FadMapping.SubOffset | packages/sacado/src/KokkosExp_View_Fad.hpp:1222-1225 | The subview offset has the kept axes' extents and strides, then the whole hidden axis with the source's stride. |
| FadMapping.SubviewAliases | packages/sacado/src/KokkosExp_View_Fad.hpp:1222-1235 | A subview index's offset plus the start offset is its parent index's offset, and an in-range subview index expands to an in-range parent index. |
| FadMapping.SubviewAddress | packages/sacado/src/KokkosExp_View_Fad.hpp:1222-1235 | The same statement on the logical axes alone. |
| FadMapping.SubviewKeepsShape | packages/sacado/src/KokkosExp_View_Fad.hpp:1162-1183 | When a subview keeps the LayoutRight or LayoutLeft tag, its offset keeps the row- or column-major shape that makes the tag correct. |
| FadMapping.LastRangeOffset | packages/sacado/src/KokkosExp_View_Fad.hpp:1171-1175 | A rank-1 subview whose last argument is a range has two axes: that range and the hidden axis, with the parent's strides. |
| YamlValues.Lookup | packages/teuchos/parameterlist/src/Teuchos_YamlParser.cpp:247-258 | The entry under a name is found exactly when the list holds the name, and it is the entry stored with it. |
| YamlValues.SetSpec | packages/teuchos/parameterlist/src/Teuchos_YamlParser.cpp:247-258 | `set` stores the entry under its name and keeps every other name's entry. It keeps the names in order or appends the new one. |
| YamlValues.SetKeepsDistinct | packages/teuchos/parameterlist/src/Teuchos_YamlParser.cpp:247-258 | `set` keeps the names of a list distinct. |
| YamlNumbers.ParseAsInt | packages/teuchos/parameterlist/src/Teuchos_YamlParser.cpp:347-353 | parse_as<int> yields the numeral's value after the leading whitespace when it is parseable, and 0 when there is no numeral. |
| YamlNumbers.ParseAsDouble | packages/teuchos/parameterlist/src/Teuchos_YamlParser.cpp:347-353 | parse_as<double> yields the numeral read after the leading whitespace, or 0 when none is read. |
| YamlNumbers.WholeIntIsParseable | packages/teuchos/parameterlist/src/Teuchos_YamlParser.cpp:728-734 | Text that canBeParsedAs<int> accepts is also accepted by is_parseable_as<int>, with the same value. |
| YamlNumbers.WholeDoubleIsParseable | packages/teuchos/parameterlist/src/Teuchos_YamlParser.cpp:728-734 | Text that canBeParsedAs<double> accepts is also accepted by is_parseable_as<double> and reads back as itself. |
| YamlNumbers.IntNumeralIsDoubleNumeral | packages/teuchos/parameterlist/src/Teuchos_YamlParser.cpp:741-746 | Every whole int numeral is a whole double numeral. |
| YamlNumbers.IntToStringRoundTrip | packages/teuchos/parameterlist/src/Teuchos_YamlParser.cpp:663-666 | An int's printed form is a whole int numeral that reads back as the int. |
| YamlNumbers.PrefixAcceptsTrailingText | packages/teuchos/parameterlist/src/Teuchos_YamlParser.cpp:341-346 | is_parseable_as<int> accepts an int numeral followed by text that does not start with a digit, with the numeral's value. canBeParsedAs<int> refuses it. |
| YamlNumbers.PrefixTruncatesFraction | packages/teuchos/parameterlist/src/Teuchos_YamlParser.cpp:341-346 | is_parseable_as<int> accepts a decimal fraction with the value of its integral part, though the whole text is a double numeral. |
| YamlNumbers.DoublePrefixStops | packages/teuchos/parameterlist/src/Teuchos_YamlParser.cpp:341-346 | The double scan of an int numeral followed by a character that cannot continue a numeral stops after the numeral, so the whole text is not a double numeral. |
| YamlNumbers.DoubleNumeralHasNoComma | packages/teuchos/parameterlist/src/Teuchos_YamlParser.cpp:623-632 | A whole double numeral holds no comma. |
| YamlReader.ScalarEntryAsWritten | packages/teuchos/parameterlist/src/Teuchos_YamlParser.cpp:188-200 | map_item as written types an unquoted scalar as int when is_parseable_as<int> accepts it, else as double when is_parseable_as<double> does, else as a string. Quoted scalars are strings. |
| YamlReader.ScalarEntry | packages/teuchos/parameterlist/src/Teuchos_YamlParser.cpp:741-746 | Corrected typing: an unquoted scalar is an int exactly when the whole text is an int numeral, and a double when it is a whole double numeral but not an int one. The value is that of the whole text. |
| YamlReader.ScalarTypingsAgree | packages/teuchos/parameterlist/src/Teuchos_YamlParser.cpp:188-200 | The two typings agree on quoted text, on whole numerals and on text with no numeral prefix. |
| YamlReader.MapItemAsWritten | packages/teuchos/parameterlist/src/Teuchos_YamlParser.cpp:183-216 | map_item as written fails with a cast error for a non-scalar key. It fails with the map-value message unless the value is a scalar, a 1-D array or a list. Otherwise it names the pair by the key. |
| YamlReader.MapItem | packages/teuchos/parameterlist/src/Teuchos_YamlParser.cpp:183-216 | Corrected map_item also accepts 2-D arrays. It agrees with the code on every non-scalar value the code accepts. |
| YamlReader.MapFirstItem | packages/teuchos/parameterlist/src/Teuchos_YamlParser.cpp:247-251 | map_first_item yields a list holding the item's pair, and fails with a cast error when the item is not a pair. |
| YamlReader.MapNextItem | packages/teuchos/parameterlist/src/Teuchos_YamlParser.cpp:252-258 | map_next_item sets the pair on the list built so far, and fails with a cast error otherwise. |
| YamlReader.MapItems | packages/teuchos/parameterlist/src/Teuchos_YamlParser.cpp:114-123 | A map's items reduce to a list exactly when all of them are pairs. |
| YamlReader.MapItemsDistinct | packages/teuchos/parameterlist/src/Teuchos_YamlParser.cpp:114-123 | A map with distinct keys becomes the list of exactly its items, in order. |
| YamlReader.DuplicateKeyKeepsLast | packages/teuchos/parameterlist/src/Teuchos_YamlParser.cpp:252-258 | A repeated key keeps its first position and takes the later value. |
| YamlReader.NestedToTwoD | packages/teuchos/parameterlist/src/Teuchos_YamlParser.cpp:218-234 | A nested array converts exactly when all rows have row 0's length. The result has that many rows and columns. A ragged one fails with the sub-array message. |
| YamlReader.NestedToTwoDCells | packages/teuchos/parameterlist/src/Teuchos_YamlParser.cpp:227-232 | Every cell of the 2-D array is the nested array's element at the same row and column. |
| YamlReader.NestedArrayToTwoDArrayTmpl | packages/teuchos/parameterlist/src/Teuchos_YamlParser.cpp:218-234 | The loops of nested_array_to_2d_array_tmpl compute exactly that conversion. |
| YamlReader.NestedArrayToTwoDArray | packages/teuchos/parameterlist/src/Teuchos_YamlParser.cpp:235-246 | Nested int, double and string arrays are converted to 2-D arrays of their element type, and every other value passes through unchanged. |
| YamlReader.SeqFirstItemAsWritten | packages/teuchos/parameterlist/src/Teuchos_YamlParser.cpp:259-298 | seq_first_item as written fails with a cast error on every scalar. It starts a nested array from a 1-D array item. |
| YamlReader.SeqFirstItem | packages/teuchos/parameterlist/src/Teuchos_YamlParser.cpp:259-298 | Corrected seq_first_item starts an int, double or string array holding the scalar's value, typed as by ScalarEntry. It agrees with the code on array items. |
| YamlReader.SeqNextItem | packages/teuchos/parameterlist/src/Teuchos_YamlParser.cpp:299-339 | seq_next_item appends one element of the array's kind. It refuses a quoted scalar in a number array, appends parse_as of an unquoted one, appends a string array's text as is, and refuses a non-array accumulator. |
| YamlReader.SeqItemsSnoc | packages/teuchos/parameterlist/src/Teuchos_YamlParser.cpp:124-133 | One more item is reduced by seq_next_item onto the result of the others. |
| YamlReader.SeqItemsKind | packages/teuchos/parameterlist/src/Teuchos_YamlParser.cpp:124-133 | The first item fixes the array's kind for the whole sequence. |
| YamlReader.Sequence | packages/teuchos/parameterlist/src/Teuchos_YamlParser.cpp:148-151 | An empty flow sequence is refused with its message. |
| YamlReader.SeqItemsFailurePropagates | packages/teuchos/parameterlist/src/Teuchos_YamlParser.cpp:124-133 | Once a prefix of the items fails, the whole sequence fails with the same error. |
| YamlReader.ScalarSequencesFailAsWritten | packages/teuchos/parameterlist/src/Teuchos_YamlParser.cpp:265-280 | As written, every sequence whose first item is a scalar fails with a cast error. |
| YamlReader.QuotedItemInIntArrayFails | packages/teuchos/parameterlist/src/Teuchos_YamlParser.cpp:305-311 | A quoted scalar after the start of a number array makes the whole sequence fail with the string-in-array message. |
| YamlReader.IntItemStartsIntArray | packages/teuchos/parameterlist/src/Teuchos_YamlParser.cpp:265-268 | An unquoted whole int numeral starts an int array of its value. |
| YamlReader.NonNumeralStoredAsZero | packages/teuchos/parameterlist/src/Teuchos_YamlParser.cpp:302-307 | An unquoted non-numeral later in an int array is stored as 0, because parse_as is not checked. |
| YamlReader.StringSequenceReads | packages/teuchos/parameterlist/src/Teuchos_YamlParser.cpp:316-320 | A sequence of scalars whose first is typed as a string reads as the string array of all the texts, quoted or not. |
| YamlWriter.FindFirstOf | packages/teuchos/parameterlist/src/Teuchos_YamlParser.cpp:736-739 | find_first_of gives the first position holding one of the characters, or the end when there is none. |
| YamlWriter.ContainsSpecialCharactersSpec | packages/teuchos/parameterlist/src/Teuchos_YamlParser.cpp:736-739 | A string contains special characters exactly when one of its characters is a YAML control character. |
| YamlWriter.QuotedText | packages/teuchos/parameterlist/src/Teuchos_YamlParser.cpp:711-721 | generalWriteString prints a string in single quotes exactly when it needs quotes, and verbatim otherwise. |
| YamlWriter.FindSpec | packages/teuchos/parameterlist/src/Teuchos_YamlParser.cpp:682 | find gives the first line break at or after the position, or the end. |
| YamlWriter.BlockLinesStep | packages/teuchos/parameterlist/src/Teuchos_YamlParser.cpp:680-697 | One pass of the loop writes the indentation and the line up to the next break with that break, or the rest of the string when there is no break. |
| YamlWriter.BlockLinesDedent | packages/teuchos/parameterlist/src/Teuchos_YamlParser.cpp:680-697 | The indented lines, with their indentation taken off, are the string again. |
| YamlWriter.BlockRoundTrip | packages/teuchos/parameterlist/src/Teuchos_YamlParser.cpp:674-698 | A multi-line string is written as a `|2-` literal block whose content, read with the indentation the header fixes, is the string. |
| YamlWriter.JoinAppend | packages/teuchos/parameterlist/src/Teuchos_YamlParser.cpp:616-621 | Writing the next element after `, ` (unless it is the first) extends the joined elements by one. |
| YamlWriter.YamlStream.WriteIndent | packages/teuchos/parameterlist/src/Teuchos_YamlParser.cpp:599-602 | The loop appends exactly `indent` spaces. |
| YamlWriter.YamlStream.WriteString | packages/teuchos/parameterlist/src/Teuchos_YamlParser.cpp:711-721 | generalWriteString appends the quoted or verbatim text. |
| YamlWriter.YamlStream.WriteArray | packages/teuchos/parameterlist/src/Teuchos_YamlParser.cpp:610-644 | The array branch appends the elements, separated by `, `, between brackets. |
| YamlWriter.YamlStream.WriteRow | packages/teuchos/parameterlist/src/Teuchos_YamlParser.cpp:582-592 | One outer pass appends a separator unless first, then the row's cells between brackets. |
| YamlWriter.YamlStream.WriteTwoDArray | packages/teuchos/parameterlist/src/Teuchos_YamlParser.cpp:578-595 | writeYamlTwoDArray appends the flow sequence of the rows' flow sequences. |
| YamlWriter.YamlStream.WriteBlock | packages/teuchos/parameterlist/src/Teuchos_YamlParser.cpp:674-698 | The multi-line string branch appends the block header and every line, indented two columns past the parameter. |
| YamlWriter.YamlStream.WriteValue | packages/teuchos/parameterlist/src/Teuchos_YamlParser.cpp:610-707 | Every non-list entry kind appends its text: arrays, 2-D arrays, int, double, string (block or quoted) and bool. |
| YamlWriter.YamlStream.WriteParameter | packages/teuchos/parameterlist/src/Teuchos_YamlParser.cpp:597-709 | writeParameter appends the indentation, the name as generalWriteString writes it, and `: `. Then comes a nested list at two more columns, or the value and a line break. |
| YamlWriter.YamlStream.WriteParameterList | packages/teuchos/parameterlist/src/Teuchos_YamlParser.cpp:541-555 | writeParameterList appends `{ }` for an empty list, else a line break and each parameter in order. |
| YamlWriter.YamlStream.WriteYamlStream | packages/teuchos/parameterlist/src/Teuchos_YamlParser.cpp:510-520 | writeYamlStream appends the header, `ANONYMOUS:`, `{ }` or the list at indent 2, and `...`. |
| YamlFlow.SplitItemsSnoc | packages/teuchos/parameterlist/src/Teuchos_YamlParser.cpp:616-621 | Cutting after the last separator splits off the last element written. |
| YamlFlow.SplitJoin | packages/teuchos/parameterlist/src/Teuchos_YamlParser.cpp:616-621 | Elements without commas, joined as the writer joins them, are cut back into exactly those elements. |
| YamlRoundTrip.StringReadsBack | packages/teuchos/parameterlist/src/Teuchos_YamlParser.cpp:741-746 | A written string reads back as that string, because it is quoted whenever it would be typed as a number. |
| YamlRoundTrip.StringParamReadsBack | packages/teuchos/parameterlist/src/Teuchos_YamlParser.cpp:699-702 | A string parameter's name and value read back as a pair of that name and string. |
| YamlRoundTrip.IntParamReadsBack | packages/teuchos/parameterlist/src/Teuchos_YamlParser.cpp:663-666 | An int parameter reads back as the same int, corrected and as written. |
| YamlRoundTrip.DoubleParamReadsBack | packages/teuchos/parameterlist/src/Teuchos_YamlParser.cpp:667-670 | A double whose printed text is a whole double numeral and not an int numeral reads back as that double. |
| YamlRoundTrip.WrittenDoubleReadsAsInt | packages/teuchos/parameterlist/src/Teuchos_YamlParser.cpp:192-194 | As written, a double printed with a fraction reads back as the int of its integral part. Corrected, it reads back as the double. |
| YamlRoundTrip.TrailingTextReadsAsInt | packages/teuchos/parameterlist/src/Teuchos_YamlParser.cpp:192-194 | A string such as `12abc` is written unquoted. As written it reads back as the int 12; corrected it reads back as the string. |
| YamlRoundTrip.BoolReadsAsString | packages/teuchos/parameterlist/src/Teuchos_YamlParser.cpp:704-707 | A bool is written as `true` or `false`, which reads back as a string. |
| YamlRoundTrip.IntArrayReadsBack | packages/teuchos/parameterlist/src/Teuchos_YamlParser.cpp:259-339 | The tokens of a written non-empty int array reduce to that array. As written, the first element's cast already fails. |
| YamlRoundTrip.StringArrayReadsBack | packages/teuchos/parameterlist/src/Teuchos_YamlParser.cpp:633-642 | The tokens of a written non-empty string array reduce to that array. |
| YamlRoundTrip.DoubleArrayReadsBack | packages/teuchos/parameterlist/src/Teuchos_YamlParser.cpp:623-632 | The tokens of a written double array reduce to that array, when the elements print as whole double numerals and the first does not print as an int numeral. |
| YamlRoundTrip.IntArrayTextReadsBack | packages/teuchos/parameterlist/src/Teuchos_YamlParser.cpp:613-622 | The text written for a non-empty int array, without its brackets and cut at the separators, reads back as the array. |
| YamlRoundTrip.DoubleArrayTextReadsBack | packages/teuchos/parameterlist/src/Teuchos_YamlParser.cpp:623-632 | The same for a double array under the conditions above. |
| YamlRoundTrip.FlattenRows | packages/teuchos/parameterlist/src/Teuchos_YamlParser.cpp:228-232 | The rows of a 2-D array laid end to end are its cells. |
| YamlRoundTrip.RowsToTwoD | packages/teuchos/parameterlist/src/Teuchos_YamlParser.cpp:218-234 | The rows of a 2-D array with at least one row and column convert back to the 2-D array. |
| YamlRoundTrip.IntGridRowsReadBack | packages/teuchos/parameterlist/src/Teuchos_YamlParser.cpp:582-592 | Each row of an int 2-D array, as written, reads back as that row. |
| YamlRoundTrip.IntGridSequenceReadsBack | packages/teuchos/parameterlist/src/Teuchos_YamlParser.cpp:156-159 | The outer sequence of row arrays reads back as the 2-D array. |
| YamlRoundTrip.IntGridParamReadsBack | packages/teuchos/parameterlist/src/Teuchos_YamlParser.cpp:201-216 | Corrected map_item stores an int 2-D array under its name, while as written map_item rejects it. |
| YamlRoundTrip.GridReadsBack | packages/teuchos/parameterlist/src/Teuchos_YamlParser.cpp:259-339 | The reductions of a written int 2-D array's row sequences, reduced as the outer sequence, give back the 2-D array. |
| YamlRoundTrip.ParamReadsBack | packages/teuchos/parameterlist/src/Teuchos_YamlParser.cpp:183-216 | A written parameter of every readable entry kind (one-line string, int, double, non-empty array, int 2-D array, nested list) is read back by the corrected map_item as its name and its entry. |
| YamlRoundTrip.ParamsReadBack | packages/teuchos/parameterlist/src/Teuchos_YamlParser.cpp:183-216 | The written parameters, each value reduced before its map item, give exactly the (name, entry) pairs of those parameters, in order. |
| YamlRoundTrip.ListReadsBack | packages/teuchos/parameterlist/src/Teuchos_YamlParser.cpp:247-258 | A parameter list with distinct names and readable entries, written and read back through map_first_item and map_next_item, is the same list: same names, same order, same entry types and values, nested lists included. |
| YamlConvert.FindXmlNpos | packages/teuchos/parameterlist/src/Teuchos_YamlParser.cpp:420 | find(".xml") reports npos exactly when `.xml` does not occur in the name. |
| YamlConvert.YamlFileNameAsWritten | packages/teuchos/parameterlist/src/Teuchos_YamlParser.cpp:420-424 | As written, the YAML name always ends in `.yaml`. |
| YamlConvert.YamlFileNameInverts | packages/teuchos/parameterlist/src/Teuchos_YamlParser.cpp:419 | Corrected, the XML name is recovered from the YAML name by dropping `.yaml` and putting `.xml` back exactly when it was there. |
| YamlConvert.AsWrittenAgreesIff | packages/teuchos/parameterlist/src/Teuchos_YamlParser.cpp:419-424 | The code follows its stated rule exactly when `.xml` is absent from the name or ends it. |
| YamlConvert.InnerXmlDropsTail | packages/teuchos/parameterlist/src/Teuchos_YamlParser.cpp:420-424 | A name that holds `.xml` but does not end with it loses its last four characters, whatever they are. |
| YamlConvert.InnerXmlExample | packages/teuchos/parameterlist/src/Teuchos_YamlParser.cpp:420-424 | `a.xml.bak` becomes `a.xml.yaml` instead of `a.xml.bak.yaml`. |

## Left out

- Kokkos' `ViewOffset`, `SubviewExtents`, `SharedAllocationRecord`,
  `ViewValueFunctor` and the FAD types are not part of this model. The offset
  has no padding and takes explicit strides. An allocation record is a value
  holding its name, size, data pointer and construction functor.
- `deep_copy`/`ViewFill` and the team `reduceAll`/`broadcast` overloads are
  left out. They call into code outside this file.
- Memory spaces, execution spaces and trackers are left out: they do not
  change any value the mapping computes.
- Compile-time checks (`static_assert`) become `requires` clauses on the
  members that model them.
- `FadMapping.FadViewMapping.AssignSubview` requires the source mapping to be
  a different object from the destination, as the two are in the source.
- The YAML lexer and LALR parser are left out. Reader actions take tokens:
  scalars with a quoted flag, arrays and maps. Quote characters and escape
  sequences inside quoted scalars are not modelled.
- `SplitItems` stands in for the flow-sequence scanner only for items
  without commas. Written string arrays, whose quoted items may hold commas, are
  not cut from their text. `StringArrayReadsBack` starts from their tokens.
- The scanner is taken to hand the reader every string that `generalWriteString`
  writes bare exactly as written. That includes the empty string and strings
  with leading or trailing blanks, for which `stringNeedsQuotes` is false, so
  the writer emits them without quotes. `YamlRoundTrip.WrittenToken`,
  `YamlRoundTrip.StringReadsBack`, `YamlRoundTrip.StringParamReadsBack` and
  `YamlRoundTrip.ListReadsBack` rest on this assumption. A YAML scanner reads
  an empty bare value as null and drops blanks around a bare scalar.
- `YamlRoundTrip.ListReadsBack` covers strings without line breaks, ints,
  doubles whose printed text is a whole double numeral and no int numeral,
  non-empty int and string arrays, double arrays under the conditions of
  `DoubleArrayReadsBack`, int 2-D arrays with a cell, and nested lists of
  these. Bools read back as strings (`BoolReadsAsString`).
  Multi-line strings are written as block scalars (`BlockRoundTrip`).
  Empty arrays and double or string 2-D arrays are outside the lemma.
- `FadMapping.FadViewMapping.Layout` reports the extents in all eight
  slots for every layout kind, LayoutStride included. The argument order of
  the `LayoutStride` constructor (extent and stride pairs) is not part of
  this model.
- `ParameterList` is modelled as an ordered list of named entries with its
  `set` operation. Sublist validation, `isUsed` flags and documentation strings
  are left out.
- Floating point is left out. A double is known by the text it prints as.
  `generalWriteDouble` writes that text, and the recogniser checks its form
  (sign, digits, point, exponent) but not its range.
- The int recogniser checks the 32-bit range. An out-of-range numeral fails
  the extraction, and `parse_as` then yields the nearest bound.
- `YamlWriter.YamlStream.WriteBlock`: `strchr` stops at an embedded NUL
  character. The model looks for a line break in the whole string.
- `YamlWriter.BlockRoundTrip` reads the block back by dropping the
  indentation. Under strip chomping a trailing line break of the string would
  be lost, and the lemma does not model that.
- `YamlWriter.YamlStream.WriteYamlStream` does not model the format-flag
  check. The copy of the flags with `showpoint` set is never applied to the
  stream, so the check only prints warnings and resets the flags it read.
  The warnings go to standard output and are left out.
- File and stream entry points (`updateParametersFromYaml*`,
  `getParametersFromYaml*`, `writeParameterListToYaml*`, `parseYaml*`,
  `writeYamlFile`, the XML reader used by `convertXmlToYaml`) are I/O and left
  out. The precision and `scientific` flags `writeYamlFile` sets are left out
  with floating point.
- `YamlReader.SeqNextItem` stores `parse_as` of any unquoted scalar without
  checking it, as the source does, so `abc` in an int array is stored as 0.
- The double-array branch of `seq_next_item` reports a quoted item with the
  message "string in integer array". The model keeps this one message for
  both number array kinds.
- `TestCXX11.hpp` and the Anasazi test are not part of this model.

## Findings

| source | as written | input that shows it | evidently intended | confidence | as-written member | corrected member |
|---|---|---|---|---|---|---|
| packages/teuchos/parameterlist/src/Teuchos_YamlParser.cpp:192-197 | `is_parseable_as` accepts any numeral prefix, so the typing of a scalar disagrees with the quoting rule of `stringNeedsQuotes` | the string `12abc`, written unquoted, reads back as the int 12; the double written `3.14` reads back as the int 3 | an unquoted scalar is typed as a number only when the whole text is one (`canBeParsedAs`) | not executed | YamlReader.ScalarEntryAsWritten, YamlRoundTrip.TrailingTextReadsAsInt, YamlRoundTrip.WrittenDoubleReadsAsInt | YamlReader.ScalarEntry, YamlRoundTrip.StringReadsBack |
| packages/teuchos/parameterlist/src/Teuchos_YamlParser.cpp:265-276 | `seq_first_item` casts the Scalar token to `int`, `double` or `std::string`, which throws `bad_any_cast` | any sequence whose first item is a scalar, such as `[1, 2]` | store the parsed value of the scalar as the array's first element | not executed | YamlReader.SeqFirstItemAsWritten, YamlReader.ScalarSequencesFailAsWritten | YamlReader.SeqFirstItem, YamlRoundTrip.IntArrayReadsBack |
| packages/teuchos/parameterlist/src/Teuchos_YamlParser.cpp:420-424 | the file name is changed whenever `.xml` occurs anywhere, and the last four characters are dropped | `a.xml.bak` gives `a.xml.yaml` | replace a trailing `.xml`, else append `.yaml` | not executed | YamlConvert.YamlFileNameAsWritten, YamlConvert.InnerXmlExample | YamlConvert.YamlFileName, YamlConvert.YamlFileNameInverts |
| packages/teuchos/parameterlist/src/Teuchos_YamlParser.cpp:201-216 | `map_item` has no branch for `TwoDArray` values, which the sequence reductions build | a parameter written by `writeYamlTwoDArray`, such as `[[1, 2], [3, 4]]` | store 2-D arrays under their name like 1-D arrays | not executed | YamlReader.MapItemAsWritten, YamlRoundTrip.IntGridParamReadsBack | YamlReader.MapItem, YamlRoundTrip.IntGridSequenceReadsBack |
