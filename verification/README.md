# Verified models of the geodata services

This project models, in Dafny, the parts of the repository whose correctness spans several functions or several
requests, and proves what they promise.

- **The filter compiler.** `CqlLexer` and `CqlGrammar` say what ECQL text means (section 6.2.2 of OGC 07-006):
  the tokens of a text and the tree of a token sequence. `GoCql` and `RustCql` are the two hand-written front ends, with their
  mutable positions and current tokens, each proved to compute that grammar. `CqlShape` says what every parsed tree looks
  like and where the engines read numerals differently, `CqlNumerals` which texts these are, `CqlPrinter` prints trees and proves that parsing undoes
  printing, `CqlRoundTrip` that what is parsed can be printed and parsed again, `CqlCompose` that bracketed filters can be
  composed as text. `SqlCompiler` is the SQL fragment of a tree, `GoSql` and `RustSql` the two compilers with their argument
  counters, `Engines` the two engines side by side.
- **What a fragment means.** `SqlLexer` and `SqlReader` read SQL conditions with PostgreSQL's lexical rules and operator
  precedence (sections 4.1 and 4.1.6 of its manual) and know nothing of filters. `SqlText` and `SqlTrees` prove what they make of
  compiled text, `SqlMeaning` gives filters and SQL conditions a three-valued truth over one uninterpreted database and proves
  them equal, `SqlPlaceholders` deals with numbering, and `Compilation` collects the results.
- **Where fragments are used.** `MapFeatures`, `CatalogFeatures` and `FeatureEdits` are the WHERE clauses of the map
  renderer, the catalogue and the WFS edits, read back as text, and what edits may touch under locks and write filters.
- **Filter XML.** `XmlTree` is the tree building of the XML front ends, `GoFilterXml` and `RustFilterXml` are the two converters
  of filter XML (section 7 of OGC 09-026), `XmlFilters` compares them, and `XmlLogic` folds connectives. `XmlText` writes trees
  as characters, without escaping, and reads them back, and `WrittenFilters` says what this does to filters.
- **Access rules and their cache.** `AccessRules` evaluates rules and composes their constraints; `AuthCache` is the decision
  cache as a protocol of atomic steps.
- **The tile service.** `TileCache` is the tile cache as a protocol of atomic steps, `Grid` and `Seeding` are tile addressing
  (section 6 of OGC 07-057) and seeding.
- **WFS locks.** `LockStore` is the advisory lock map of sections 12 and 15 of OGC 09-025, against the history of all issued locks.
- **Raster coverages.** `Coverage` renders a raster by its nearest cells, `TiffDirectory` looks up tags in a TIFF file (section 2 of
  TIFF 6.0).

The code does not do what its documentation or a caller would expect in the places below; for each the exact condition is proved.

- The two filter engines are said to be byte-identical (`README.md:72`). They are, except that Go rejects a numeral beyond the
  largest double and Rust binds an infinity (`Engines.BothEngines`, `Engines.EnginesPart`, `CqlNumerals.ReadAlike`).
- The same filter XML means the same to both engines only as long as property names have no prefix, compared literals are no numbers
  and patterns have no wildcards: Go strips prefixes and binds every literal as text, Rust translates wildcards
  (`XmlFilters.ComparisonsAgreeExactly` and the lemmas beside it). Documents of such tests do (`XmlFilters.PlainDocumentsAgree`).
- Rust drops the operands of And and Or that it cannot convert, among them every spatial test, and reads filters that Go refuses, such as
  And with one operand (`XmlFilters.DropsExactly`, `XmlFilters.SpatialOperandDropped`, `XmlFilters.GoConvertsComplete`).
- A WFS edit writes the tree of its Filter element out unescaped before it is converted. Texts with `<` or `&` and attributes with
  quotes, backslashes or unprintable characters do not survive this, and exactly which do is stated (`XmlText.TextSurvives`,
  `XmlText.ValueSurvives`); a filter of texts that do is converted as it stands (`WrittenFilters.WrittenFilter`).
- Access rules store constraints without parsing them. A text that is no filter can compose with another constraint to a
  filter that admits rows that constraint excludes (`AccessRules.UncheckedConstraintAdmits`). Each constraint has to parse before it is
  composed; then all of them hold (`AccessRules.ConjoinedAdmits`).
- Seeding resolves and renders before it reads the generation. A change and its bump in between leave a stale tile, a bump
  without a change does not (`TileCache.SeededIsFreshExactly`); without the former tiles are fresh (`TileCache.TilesAreFresh`).
- A request has its cache key of authorization decisions to itself, and is answered right in every run, exactly when none of its
  five fields contains a colon (`AuthCache.SharesKeyExactly`, `AuthCache.AnsweredRightExactly`). Qualified layer names contain one; they are
  safe as long as no request has a colon elsewhere (`AuthCache.ChecksAreFresh`).
- A lock lasts the minutes asked for exactly up to 153722867 of them (`LockStore.ExpiryExactly`). One minute more and it is born expired,
  which other long times are not: exactly those are whose nanoseconds divided by 2^63 give an odd number (`LockStore.BornExpiredExactly`,
  `LockStore.ShortLived`).
- A raster is also read outside its bounds: the bounds check keeps the low 32 bits of a cell number and the pixel index 64, so a cell shows
  the one its low bits name when its high bits cancel in the index (`Coverage.SampleIsLowCell`, `Coverage.SampleIsRightWhen`). Cell
  numbers below 2^32 are read right (`Coverage.OnlyFarCellsAreWrong`, `Coverage.ShownExactly`).
- A layer requested with a colon in front is served from the layer behind the colon, but no event ever bumps its tiles
  (`TileCache.EventsReachLayer`, `TileCache.EventsMissLayer`).
- An edit drops a write filter that does not parse, and then touches rows the filter was to exclude
  (`FeatureEdits.KeepsToWriteFilterExactly`).

One comment is out of date: it says that transactions do not yet enforce locks (`services/wfs/internal/wfs/stored_lock.go:160-161`).
They do, and the model follows the code (`FeatureEdits.DoUpdate`, `LockStore.Store.EnforceLocks`).

## Model

| member | source | states |
|---|---|---|
| CqlLexer.StreamAppend | libs/ogc-kit/filter/cql.go:43-137 | The tokens of a text that lexes are unaffected by what is written behind it, when that starts with a space, bracket, comma or nothing |
| CqlLexer.StreamOfRender | libs/ogc-kit/filter/cql.go:43-137 | Writing any sequence of possible tokens out, strings with doubled quotes, and lexing it again gives the same tokens |
| CqlLexer.StreamLexical | libs/ogc-kit/filter/cql.go:20-24 | Every token the lexer can return has the form its kind promises, with the upper-cased text exactly for identifiers |
| GoCql.Lexer.Next | libs/ogc-kit/filter/cql.go:43-85 | Returns the next token of the text from the current position, the end of the text again and again, or fails on an unexpected character; the position moves to exactly what is left |
| GoCql.Lexer.LexString | libs/ogc-kit/filter/cql.go:87-105 | Reads a string literal whose doubled quotes stand for one, or fails when it is not closed |
| GoCql.Lexer.LexNumber | libs/ogc-kit/filter/cql.go:107-128 | Reads the longest run of numeral characters and fails when it holds no digit |
| GoCql.Lexer.LexIdent | libs/ogc-kit/filter/cql.go:130-137 | Reads the longest run of identifier characters and upper-cases a copy of it |
| GoCql.Lexer.LexOperator | libs/ogc-kit/filter/cql.go:56-76 | Reads the longest comparison operator |
| RustCql.Lexer.NextToken | libs/geo-core/src/filter/cql.rs:73-129 | Returns the next token of the text from the current position, the end of the text again and again, or fails on an unexpected character; the position moves to exactly what is left |
| RustCql.Lexer.LexOperator | libs/geo-core/src/filter/cql.rs:96-123 | Reads the longest comparison operator |
| RustCql.Lexer.LexString | libs/geo-core/src/filter/cql.rs:131-152 | Reads a string literal whose doubled quotes stand for one, or fails when it is not closed |
| RustCql.Lexer.LexNumber | libs/geo-core/src/filter/cql.rs:154-179 | Reads the longest run of numeral characters and fails when it holds no digit |
| RustCql.Lexer.LexIdent | libs/geo-core/src/filter/cql.rs:181-198 | Reads the longest run of identifier characters and upper-cases a copy of it |
| GoCql.CqlParser.Advance | libs/ogc-kit/filter/cql.go:152-159 | Replaces the current token by the next one, or fails where the lexer does; the result and the tokens left are those of the grammar |
| RustCql.Parser.Advance | libs/geo-core/src/filter/cql.rs:243-246 | Replaces the current token by the next one, or fails where the lexer does; the result and the tokens left are those of the grammar |
| GoCql.CqlParser.Expect | libs/ogc-kit/filter/cql.go:436-441 | Passes a token with the given text, whatever its kind, and fails on any other; the result and the tokens left are those of the grammar |
| RustCql.Parser.Expect | libs/geo-core/src/filter/cql.rs:248-253 | Passes a token with the given text, whatever its kind, and fails on any other; the result and the tokens left are those of the grammar |
| GoCql.CqlParser.ParseOr | libs/ogc-kit/filter/cql.go:180-196 | Reads a left-associative chain of AND chains joined by OR; the result and the tokens left are those of the grammar |
| RustCql.Parser.ParseOr | libs/geo-core/src/filter/cql.rs:255-266 | Reads a left-associative chain of AND chains joined by OR; the result and the tokens left are those of the grammar |
| GoCql.CqlParser.ParseAnd | libs/ogc-kit/filter/cql.go:198-214 | Reads a left-associative chain of operands joined by AND; the result and the tokens left are those of the grammar |
| RustCql.Parser.ParseAnd | libs/geo-core/src/filter/cql.rs:268-279 | Reads a left-associative chain of operands joined by AND; the result and the tokens left are those of the grammar |
| GoCql.CqlParser.ParseUnary | libs/ogc-kit/filter/cql.go:216-228 | Reads NOT, which binds tighter than AND, or a primary; the result and the tokens left are those of the grammar |
| RustCql.Parser.ParseUnary | libs/geo-core/src/filter/cql.rs:281-288 | Reads NOT, which binds tighter than AND, or a primary; the result and the tokens left are those of the grammar |
| GoCql.CqlParser.ParsePrimary | libs/ogc-kit/filter/cql.go:230-246 | Reads a filter in brackets or an atom; the result and the tokens left are those of the grammar |
| RustCql.Parser.ParsePrimary | libs/geo-core/src/filter/cql.rs:290-302 | Reads a filter in brackets or an atom; the result and the tokens left are those of the grammar |
| GoCql.CqlParser.ParseAtom | libs/ogc-kit/filter/cql.go:247-273 | Chooses the atom by its first word: INCLUDE, EXCLUDE, BBOX, a spatial relation, DWITHIN, BEYOND, or a test on a property; the result and the tokens left are those of the grammar |
| RustCql.Parser.ParseAtom | libs/geo-core/src/filter/cql.rs:303-318 | Chooses the atom by its first word: INCLUDE, EXCLUDE, BBOX, a spatial relation, DWITHIN, BEYOND, or a test on a property; the result and the tokens left are those of the grammar |
| GoCql.CqlParser.ParsePredicate | libs/ogc-kit/filter/cql.go:282-314 | Reads a test on a property: a comparison, a negated keyword test or a keyword test; the result and the tokens left are those of the grammar |
| RustCql.Parser.ParsePredicate | libs/geo-core/src/filter/cql.rs:321-347 | Reads a test on a property: a comparison, a negated keyword test or a keyword test; the result and the tokens left are those of the grammar |
| GoCql.CqlParser.ParseKeyword | libs/ogc-kit/filter/cql.go:315-400 | Reads LIKE, ILIKE, IN, BETWEEN or IS behind a property, and fails on NOT before IS and on any other word; the result and the tokens left are those of the grammar |
| RustCql.Parser.ParseKeyword | libs/geo-core/src/filter/cql.rs:348-424 | Reads LIKE, ILIKE, IN, BETWEEN or IS behind a property, and fails on NOT before IS and on any other word; the result and the tokens left are those of the grammar |
| GoCql.CqlParser.ParseLike | libs/ogc-kit/filter/cql.go:316-328 | Reads the string pattern of LIKE or ILIKE; the result and the tokens left are those of the grammar |
| RustCql.Parser.ParseLike | libs/geo-core/src/filter/cql.rs:349-363 | Reads the string pattern of LIKE or ILIKE; the result and the tokens left are those of the grammar |
| GoCql.CqlParser.ParseIn | libs/ogc-kit/filter/cql.go:329-357 | Reads the bracketed values of IN, at least one; the result and the tokens left are those of the grammar |
| RustCql.Parser.ParseIn | libs/geo-core/src/filter/cql.rs:364-388 | Reads the bracketed values of IN, at least one; the result and the tokens left are those of the grammar |
| GoCql.CqlParser.ParseBetween | libs/ogc-kit/filter/cql.go:358-376 | Reads two values with AND between them, which is not the logical AND; the result and the tokens left are those of the grammar |
| RustCql.Parser.ParseBetween | libs/geo-core/src/filter/cql.rs:389-403 | Reads two values with AND between them, which is not the logical AND; the result and the tokens left are those of the grammar |
| GoCql.CqlParser.ParseIs | libs/ogc-kit/filter/cql.go:377-397 | Reads IS NULL or IS NOT NULL; the result and the tokens left are those of the grammar |
| RustCql.Parser.ParseIs | libs/geo-core/src/filter/cql.rs:404-422 | Reads IS NULL or IS NOT NULL; the result and the tokens left are those of the grammar |
| GoCql.CqlParser.ParseValue | libs/ogc-kit/filter/cql.go:402-434 | Reads a string, numeral, TRUE, FALSE or property; a numeral the conversion rejects fails; the result and the tokens left are those of the grammar |
| RustCql.Parser.ParseValue | libs/geo-core/src/filter/cql.rs:427-455 | Reads a string, numeral, TRUE, FALSE or property; a numeral the conversion rejects fails; the result and the tokens left are those of the grammar |
| GoCql.CqlParser.ParseNum | libs/ogc-kit/filter/cql.go:443-452 | Reads a numeral; the result and the tokens left are those of the grammar |
| RustCql.Parser.ParseNum | libs/geo-core/src/filter/cql.rs:457-468 | Reads a numeral; the result and the tokens left are those of the grammar |
| GoCql.CqlParser.ParseBBox | libs/ogc-kit/filter/cql.go:454-496 | Reads a property, four bounds and an optional reference system; the result and the tokens left are those of the grammar |
| RustCql.Parser.ParseBBox | libs/geo-core/src/filter/cql.rs:470-501 | Reads a property, four bounds and an optional reference system; the result and the tokens left are those of the grammar |
| GoCql.CqlParser.ParseWkt | libs/ogc-kit/filter/cql.go:498-550 | Collects geometry text up to the bracket that closes its first one; the result and the tokens left are those of the grammar |
| RustCql.Parser.ParseWkt | libs/geo-core/src/filter/cql.rs:503-546 | Collects geometry text up to the bracket that closes its first one; the result and the tokens left are those of the grammar |
| GoCql.CqlParser.ParseSpatial | libs/ogc-kit/filter/cql.go:552-577 | Reads a property and a geometry; the result and the tokens left are those of the grammar |
| RustCql.Parser.ParseSpatial | libs/geo-core/src/filter/cql.rs:548-564 | Reads a property and a geometry; the result and the tokens left are those of the grammar |
| GoCql.CqlParser.ParseDWithin | libs/ogc-kit/filter/cql.go:579-622 | Reads a property, a geometry, a distance and a unit; the result and the tokens left are those of the grammar |
| RustCql.Parser.ParseDWithin | libs/geo-core/src/filter/cql.rs:566-593 | Reads a property, a geometry, a distance and a unit; the result and the tokens left are those of the grammar |
| GoCql.StripPrefix | libs/ogc-kit/filter/cql.go:275-280 | The search for the first colon drops everything up to it |
| RustCql.StripPrefix | libs/geo-core/src/filter/cql.rs:215-220 | The same, from the position the colon is found at |
| GoCql.AtomKindOf | libs/ogc-kit/filter/cql.go:250-273 | The tests on the first word of an atom, in the order of the code, choose the construct of the grammar |
| RustCql.AtomKindOf | libs/geo-core/src/filter/cql.rs:303-318 | The match on the first word of an atom chooses the same construct |
| GoCql.ParseCql | libs/ogc-kit/filter/cql.go:162-178 | The whole Go front end computes the grammar function on the text, numerals beyond the largest double rejected |
| RustCql.ParseCql | libs/geo-core/src/filter/cql.rs:228-240 | The whole Rust front end computes the same grammar function, numerals beyond the largest double read as infinities |
| CqlShape.GoParsesFiniteRust | libs/ogc-kit/filter/cql.go:402-452 | Go accepts exactly the filters in which Rust reads no infinity, and to the same tree |
| CqlShape.ParsedIsShaped | libs/ogc-kit/filter/cql.go:180-434 | Whatever parses has properties on the left, literals or properties as values, binary connectives, no empty IN, and names of identifier characters |
| CqlPrinter.ParseOfPrint | libs/ogc-kit/filter/cql.go:87-105 | Parsing undoes a canonical printer with as few brackets as the grammar allows, on every tree the parser can build whose numerals print and whose geometry text is stable |
| CqlPrinter.CollectedWktIsStable | libs/ogc-kit/filter/cql.go:498-550 | Geometry text collected from tokens without string literals is a fixed point of collecting |
| CqlPrinter.ParsedWktIsStable | libs/geo-core/src/filter/cql.rs:503-546 | A geometry collected from tokens without string literals, with anything behind it, has text that is printed and parsed back |
| CqlRoundTrip.ParsedIsPrintable | libs/ogc-kit/filter/cql.go:180-550 | Whatever a text without string literals inside geometries parses to can be printed, if the numbers that are read can |
| CqlRoundTrip.PrintedAgain | libs/geo-core/src/filter/cql.rs:242-593 | In both engines, parsing such a text, printing the filter and parsing again gives the same filter |
| CqlCompose.ChainCarries | libs/ogc-kit/filter/cql.go:180-214 | What a bracketed filter parses to does not depend on what follows its closing bracket |
| CqlCompose.JoinedParses | services/auth/internal/rules/rules.go:51-59 | Two filters that parse, composed as bracketed text with AND between them, parse to the conjunction of their trees |
| CqlCompose.UnbalancedComposes | services/auth/internal/rules/rules.go:51-59 | A text that closes a bracket it did not open and opens another fails alone, but composed with any filter it parses to a disjunction |
| GoSql.IdentPattern | libs/ogc-kit/filter/sql.go:9-18 | The pattern of the Go engine accepts the names that start with a letter or underscore and go on with these and digits, and quoting is that of the fragment function |
| GoSql.TitledName | libs/ogc-kit/filter/sql.go:161 | Upper-casing the first letter of every word of an operator gives the name of its function |
| RustSql.ValidIdent | libs/geo-core/src/filter/sql.rs:13-20 | The character loop of the Rust engine accepts the same names |
| RustSql.StSpatial | libs/geo-core/src/filter/sql.rs:52-62 | Upper-casing the first character alone gives the same function names |
| GoSql.ArgCounter.Placeholder | libs/ogc-kit/filter/sql.go:26-31 | Appends the value to the arguments, returns its placeholder and moves the counter on by one |
| GoSql.EmitExpr | libs/ogc-kit/filter/sql.go:52-177 | The Go compiler appends to its counter exactly the arguments of the fragment function, and returns its text |
| GoSql.ToSql | libs/ogc-kit/filter/sql.go:35-42 | The Go compiler is the fragment function |
| RustSql.Ctr.Placeholder | libs/geo-core/src/filter/sql.rs:35-40 | Appends the value to the arguments, returns its placeholder and moves the counter on by one |
| RustSql.EmitExpr | libs/geo-core/src/filter/sql.rs:75-199 | The Rust compiler appends to its counter exactly the arguments of the fragment function, and returns its text |
| RustSql.ToSql | libs/geo-core/src/filter/sql.rs:66-73 | The Rust compiler is the same fragment function |
| Engines.GoEngine | README.md:72 | Filter text to SQL in Go: parser and compiler together |
| Engines.RustEngine | README.md:72 | Filter text to SQL in Rust: parser and compiler together |
| Engines.BothEngines | README.md:72 | On every input both engines fail or give identical SQL and arguments, with one exact exception: they part if and only if Rust binds an infinity, and then Go fails. On the text: they agree when no numeral in it is beyond the largest double, and only then if Rust accepts it and its geometries hold no such numeral |
| CqlNumerals.InfinitiesCounted | libs/geo-core/src/filter/cql.rs:427-468 | A filter holds at most as many infinities as its text has numerals beyond the largest double, and exactly as many when its geometries have none |
| CqlNumerals.ReadAlike | libs/ogc-kit/filter/cql.go:402-452 | Both parsers read a text alike when no numeral in it is beyond the largest double, and only then if Rust accepts it and its geometries hold no such numeral |
| Engines.EnginesPart | README.md:72 | A family of inputs on which they do part: a property compared with a numeral beyond the largest double |
| SqlFragments.EmitIs | libs/ogc-kit/filter/sql.go:52-177 | For every tree: whether compiling succeeds and which arguments it binds do not depend on the first placeholder, and the arguments are the literals and numbers left to right |
| Compilation.SucceedsExactly | libs/ogc-kit/filter/sql.go:11-18 | On every filter the parser can return, compiling succeeds if and only if every property name is a plain identifier and every operand of IN and BETWEEN is a literal |
| Compilation.CompilesExactly | libs/ogc-kit/filter/sql.go:44-177 | The same for filters with AND and OR of any number of operands |
| SqlText.LexFragment | libs/ogc-kit/filter/sql.go:52-177 | The text of every compiled fragment lexes, by PostgreSQL rules, to the tokens of its structure |
| SqlPlaceholders.PlaceholdersInOrder | libs/ogc-kit/filter/sql.go:26-42 | A fragment compiled from k with n arguments mentions $k to $(k+n-1), each exactly once and left to right |
| SqlPlaceholders.Renumbered | libs/ogc-kit/filter/sql.go:33-42 | Compiling from a later first placeholder succeeds alike, binds equal arguments and differs only by raising every index |
| SqlTrees.FragmentTree | libs/ogc-kit/filter/sql.go:52-177 | Read with PostgreSQL precedence, a fragment is one expression at the level of NOT whatever part of a condition follows it |
| SqlMeaning.TreeMeans | libs/ogc-kit/filter/sql.go:52-177 | With placeholders bound to the arguments, that expression has the three-valued truth of the filter on every row |
| Compilation.FragmentMeans | libs/ogc-kit/filter/sql.go:33-42 | Compiling preserves meaning: the text read back under SQL precedence is true, false or unknown exactly as the filter is, for every row and any database behaviour |
| Compilation.ParsedFilterMeans | libs/ogc-kit/filter/cql.go:162-178 | The same from filter text: whatever parses and compiles keeps its meaning |
| WhereClauses.OperandBehindAnd | services/wms/src/render/vector.rs:42-49 | A fragment appended behind AND without brackets is exactly one operand of the conjunction |
| MapFeatures.FetchFeaturesWhere | services/wms/src/render/vector.rs:20-50 | The assembled WHERE reads as the conjunction of the request box on $1 to $4 and the filter from $5, or as the box alone; it fails exactly on a bad table or column name or a filter that does not compile |
| MapFeatures.FetchFeaturesMeans | services/wms/src/render/vector.rs:38-69 | With the bound arguments a row is selected when the transformed box overlaps it and the filter holds |
| CatalogFeatures.FeaturesWhere | services/catalog/internal/store/ogcfeatures.go:18-54 | From the names and the request, assembling builds the text and arguments of the request function, with the filter numbered behind the box if there is one |
| CatalogFeatures.RequestReads | services/catalog/internal/store/ogcfeatures.go:18-54 | Read back, the assembled WHERE is empty, the box, the bracketed filter, or their conjunction; assembling fails exactly on a bad table or column name, or a filter that does not parse or compile |
| CatalogFeatures.ValidTable | services/catalog/internal/store/store.go:562-576 | The check of a name accepts exactly what the filter compilers accept as an identifier |
| CatalogFeatures.FeaturesMean | services/catalog/internal/store/ogcfeatures.go:29-54 | With the bound arguments a feature is selected when it meets the box, if any, and the filter holds |
| FeatureEdits.TxFilterWhere | services/wfs/internal/wfs/xmltree.go:160-187 | The condition of an edit is that of its feature id or of its Filter element written out as a document, decoded and converted, and of the write filter of the request, when that parses |
| FeatureEdits.ElementIsItsFilter | services/wfs/internal/wfs/xmltree.go:160-173 | When text between elements is blank, that filter is the one that stands in the operation |
| WrittenFilters.EditReadsElement | services/wfs/internal/wfs/xmltree.go:160-173 | The filter of an edit is the one that its Filter element reads as, written out character by character in any order of attributes, when names, texts and attributes of the element are plain |
| WrittenFilters.WrittenFilter | services/wfs/internal/wfs/xmltree.go:60-78 | Such an element converts after it to the filter it stood for, if text between elements is blank |
| FeatureEdits.KeepsToWriteFilterExactly | services/wfs/internal/wfs/xmltree.go:174-178 | On every row its own filter chooses, an edit keeps to the write filter of the request if and only if that is empty or parses |
| FeatureEdits.EditKeepsToRules | services/wfs/internal/wfs/xmltree.go:174-178 | With the write filter that access rules compose of constraints that parse, an edit chooses exactly the rows of its own filter that all of them admit |
| FeatureEdits.SetClauses | services/wfs/internal/wfs/transaction.go:293-314 | Every Property becomes an assignment, the last name and value in it counting, numbered from $1 in order; a name that is no identifier fails |
| FeatureEdits.DoUpdate | services/wfs/internal/wfs/transaction.go:278-328 | An Update is issued exactly when the table, the columns and the condition are good and the lock store found no other lock on the ids its condition selects |
| FeatureEdits.DoDelete | services/wfs/internal/wfs/transaction.go:330-352 | A Delete is issued exactly when its condition compiles and the lock store found no other lock on the ids it selects |
| FeatureEdits.SameSuccess | services/wfs/internal/wfs/transaction.go:287-318 | The condition of the lock check compiles exactly when the condition of the edit does |
| FeatureEdits.SameRows | services/wfs/internal/wfs/transaction.go:287-321 | Every row that the condition of the lock check selects under its own arguments is selected by the condition of the Update behind any assigned values, and the other way round |
| FeatureEdits.LockedRowsUntouched | services/wfs/internal/wfs/transaction.go:287-321 | At the instant of the check, an edit that passed it selects no row whose id a live lock of another holds on the table |
| AccessRules.RoleMatch | services/auth/internal/rules/rules.go:30-40 | A role pattern matches when it is open or some role of the subject equals it up to case |
| AccessRules.FirstDeciderFirst | services/auth/internal/rules/rules.go:64-88 | The deciding rule is the first matching ALLOW or DENY |
| AccessRules.Evaluate | services/auth/internal/rules/rules.go:61-88 | The loop returns the decision of the first matching ALLOW or DENY, or the default, with the constraints of exactly the matching LIMIT rules before it |
| AccessRules.ConjoinedParses | services/auth/internal/rules/rules.go:51-87 | When every constraint parses, the composed text parses to the left fold of their trees under AND, and is empty exactly when all are |
| AccessRules.ConjoinedAdmits | services/auth/internal/rules/rules.go:51-87 | The composed text admits exactly the rows that every constraint admits |
| AccessRules.UncheckedConstraintAdmits | services/auth/internal/api/geofence.go:50-68 | A constraint that does not parse, which adding a rule does not check, can compose with another to a filter that admits rows the other excludes |
| AccessRules.EnginesCompose | services/auth/internal/rules/rules.go:51-59 | Both engines return formulas only, and parse bracketed filters with AND between them to their conjunction |
| AccessRules.InsertLimit | services/auth/internal/rules/rules.go:61-88 | A LIMIT rule inserted anywhere never changes whether a request is allowed and never shows a hidden row; exactly which rows remain is stated |
| AuthCache.KeyInjective | services/auth/internal/api/check.go:97-103 | Among requests with colons in the layer only, equal cache keys come from the same generation and request |
| AuthCache.SharesKeyExactly | services/auth/internal/api/check.go:97-103 | A request shares its key with another generation or request if and only if one of its five fields contains a colon |
| AuthCache.AnsweredRightExactly | services/auth/internal/api/check.go:96-129 | In every run every check of a request answers as some committed rule set decides for it, if and only if none of its five fields contains a colon |
| AuthCache.TwinIsAnswered | services/auth/internal/api/check.go:96-129 | With a colon, there is a run in which the check gets the decision of another request |
| AuthCache.TwinShares | services/auth/internal/api/check.go:100-101 | A request with a colon has the key of another one, in which that colon ends the field |
| AuthCache.StoreKeeps | services/auth/internal/api/check.go:109-128 | Storing a decision keeps every cached decision as fresh as the generation in its key demands |
| AuthCache.BumpKeeps | services/auth/internal/api/api.go:28-32 | Raising the generation keeps all entries sound, and no entry exists under the new generation |
| AuthCache.StepKeeps | services/auth/internal/api/check.go:81-129 | Every atomic step of a check, a rule change or an expiry keeps the invariant of the protocol |
| AuthCache.ChecksAnswerTheirKey | services/auth/internal/api/check.go:81-129 | Over every interleaving, a check that reads the generation after a rule change was announced answers as that rule set or a later committed one decides for some check with the same key |
| AuthCache.ChecksAreFresh | services/auth/internal/api/check.go:81-129 | So it answers for itself when it has no colon, or no check of the run has one outside the layer |
| AuthCache.Server.Check | services/auth/internal/api/check.go:96-129 | Undisturbed, a check answers from the cache or evaluates the current rules and stores the decision under the current generation |
| AuthCache.Server.ChangeRules | services/auth/internal/api/geofence.go:62-86 | After a rule change no decision cached before is found for any request |
| AuthCache.UndisturbedChange | services/auth/internal/api/geofence.go:62-86 | The steps of one rule change without interruption amount to what the handler does |
| AuthCache.UndisturbedCheck | services/auth/internal/api/check.go:96-129 | The steps of one check without interruption amount to what the handler does |
| TileCache.KeyTextInjective | services/tiles/src/cache.rs:38-51 | The hashed texts of two tile keys are equal if and only if layer, gridset, zoom, column, row and generation are, and both or neither are vector tiles, whatever slashes the layer names contain |
| TileCache.GetKeeps | services/tiles/src/wmts.rs:49-56 | A hit serves bytes that are fresh for the generation that was read |
| TileCache.PutKeeps | services/tiles/src/cache.rs:64-78 | Storing, or failing to store, rendered bytes keeps the cache fresh |
| TileCache.BumpKeeps | services/tiles/src/events.rs:38-47 | An event or truncation starts a generation with nothing stored and leaves earlier ones as they were |
| TileCache.EventsReachLayer | services/tiles/src/events.rs:7-17 | The events of the layer a request resolves to bump the generation of the requested name if and only if that does not begin with a colon |
| TileCache.EventsMissLayer | services/tiles/src/wmts.rs:18-23 | A name with a colon in front resolves to the layer behind the colon, and no event of any layer bumps its generation |
| TileCache.StepKeeps | services/tiles/src/wmts.rs:30-75 | Every step of requests, seeding, data changes, bumps and evictions keeps the invariant, given that seeding reads its generation cleanly |
| TileCache.TilesAreFresh | services/tiles/src/wmts.rs:30-75 | Over every interleaving in which seeding reads its generation cleanly, which bumps without a change never prevent, a request that reads the generation after a bump serves a rendering of a content at least as new as the one current at the bump |
| TileCache.SeededIsServed | services/tiles/src/wmts.rs:219-238 | What seeding rendered is stored under whatever generation it reads afterwards, and served under it |
| TileCache.ReachesAcrossBump | services/tiles/src/wmts.rs:226-238 | The actions of that run lead to the state from which it happens |
| TileCache.SeededIsFreshExactly | services/tiles/src/wmts.rs:226-238 | In every reachable state, a seeded tile that is stored and then served is fresh if the content at the last bump before its key was made is no newer than those it was described and drawn from, and only if, when its bytes tell them apart |
| TileCache.TruncatingIsClean | services/tiles/src/wmts.rs:247-256 | A bump without a change of content leaves what was seeded from the current content clean |
| TileCache.SeedingAcrossBumpIsStale | services/tiles/src/wmts.rs:226-238 | A run that ends in a stale tile being served: seeding draws, the content changes and is announced, seeding makes its key |
| TileCache.Server.ServeTile | services/tiles/src/wmts.rs:30-75 | Hit and miss give the same status, type and body as no cache at all while the stored tile is current, and keep it current |
| TileCache.Server.BumpGeneration | services/tiles/src/cache.rs:30-35 | A bump raises the generation of one layer and of no other |
| TileCache.UndisturbedRequest | services/tiles/src/wmts.rs:30-75 | The steps of one request without interruption amount to what the handler does |
| TileCache.UndisturbedBump | services/tiles/src/cache.rs:30-35 | The step of a bump does to generations what the handler does |
| LockStore.Store.EnforceLocks | services/wfs/internal/wfs/stored_lock.go:122-145 | An edit passes exactly when no lock ever issued, unexpired, under another id and on the same table, holds a target feature, in whatever order the map is walked and wherever the walk stops |
| LockStore.Store.LockFeature | services/wfs/internal/wfs/stored_lock.go:178-186 | A lock is added to the history and the store, expiring after its minutes from now |
| LockStore.ForgettingIsSafe | services/wfs/internal/wfs/stored_lock.go:130-134 | Forgetting any expired locks changes no verdict from then on |
| LockStore.NewLockHolds | services/wfs/internal/wfs/stored_lock.go:130-143 | A new lock refuses exactly requests without its id that target one of its features, while it is live |
| LockStore.ExpiryExactly | services/wfs/internal/wfs/stored_lock.go:153-158 | A lock lasts the minutes asked for if and only if their nanoseconds fit a signed 64-bit duration |
| LockStore.BornExpiredExactly | services/wfs/internal/wfs/stored_lock.go:153-158 | A lock is issued already expired if and only if the nanoseconds asked for, divided by 2^63, give an odd number |
| LockStore.ExpiryOverflows | services/wfs/internal/wfs/stored_lock.go:153-158 | So it is at one minute beyond the longest time that fits |
| LockStore.ShortLived | services/wfs/internal/wfs/stored_lock.go:153-158 | At 307445735 minutes it is live again, for less than one minute |
| Grid.TilesPartition | services/tiles/src/grid.rs:46-67 | Every point of the half-open extent lies in exactly one tile of each zoom level |
| Grid.FourChildren | services/tiles/src/grid.rs:55-67 | A tile is the disjoint union of its four children, and is in the grid exactly when they are |
| Grid.FlipMirrors | services/tiles/src/wmts.rs:97-107 | The TMS flip stays in the grid, gives the row back when repeated if and only if the row is in the grid, and mirrors the box |
| Seeding.Seed | services/tiles/src/wmts.rs:199-244 | The loops visit the tiles of the zoom levels in order and count the renderings that succeed; a last zoom above 5, after truncation to a byte, is refused |
| Seeding.SeedVisitsExactly | services/tiles/src/wmts.rs:224-240 | Every tile of the zoom levels is visited exactly once and nothing else is |
| Seeding.SeedCount | services/tiles/src/wmts.rs:224-240 | The zoom levels a to b-1 hold (4^b - 4^a)/3 tiles, twice that for EPSG:4326 |
| Seeding.AllSeeded | services/tiles/src/wmts.rs:224-240 | When every rendering succeeds all of them are counted |
| Seeding.SeededAtMost | services/tiles/src/wmts.rs:208-210 | No accepted request seeds more than 2730 tiles |
| XmlTree.TreeDecoder.Token | libs/ogc-kit/filter/xml.go:28-50 | A start tag is linked to the open element and opened, an end tag closes it, character data is appended to it; outside the root they are ignored |
| XmlTree.Decode | services/wfs/internal/wfs/xmltree.go:21-58 | The decoding loop returns the tree its references lead to, and fails on a malformed or empty document |
| XmlTree.RootBuilt | libs/ogc-kit/filter/xml.go:17-56 | Decoding the token stream of any document, character data and elements in any order, rebuilds its tree |
| XmlTree.ReserializeThenDecode | services/wfs/internal/wfs/xmltree.go:60-78 | As token streams: writing a tree out and decoding it loses only the text of elements with children, and nothing exactly when there is none |
| XmlText.Reserialize | services/wfs/internal/wfs/xmltree.go:60-78 | The writer: an element, its attributes in the arbitrary order of the map with their values quoted, and its unescaped text or else its children, gives the text of the tree in that order |
| XmlText.TextSurvives | services/wfs/internal/wfs/xmltree.go:70-72 | Text that is written as it stands is read back if and only if every character is legal and none is <, & or a carriage return, and ]]> does not occur in it |
| XmlText.UnescapedTwice | services/wfs/internal/wfs/xmltree.go:70-72 | Text that was escaped twice in the request is unescaped once more |
| XmlText.ValueSurvives | services/wfs/internal/wfs/xmltree.go:66-68 | A quoted attribute value is read back if and only if every character is printable and legal and none is a quote, backslash, < or & |
| XmlText.WriteThenRead | services/wfs/internal/wfs/xmltree.go:60-78 | As characters: when names, texts and attributes are plain, writing a tree out in any order of attributes and reading it back loses only the text of elements with children |
| GoFilterXml.ConvertNode | libs/ogc-kit/filter/xml.go:92-160 | The Go converter: operands one by one, folded from the left, and failing exactly where the code does |
| GoFilterXml.ConvertTestNode | libs/ogc-kit/filter/xml.go:129-252 | Tests on one property: comparisons, spatial relations, patterns, null tests, ranges and boxes |
| GoFilterXml.ConvertIsFormula | libs/ogc-kit/filter/xml.go:92-160 | Whatever converts is a filter the compiler knows, with a property on the left |
| GoFilterXml.StrippedConverts | services/wfs/internal/wfs/xmltree.go:60-78 | An element converts alike without the text of elements with children, when that is blank |
| GoFilterXml.ReserializedFilter | services/wfs/internal/wfs/xmltree.go:160-173 | So a Filter element written out and read back is the same filter |
| GoFilterXml.MixedTextIsLost | libs/ogc-kit/filter/xml.go:187-194 | A lower boundary with text beside an element shows that text between elements must be blank |
| XmlFilters.FiltersAgree | services/wms/src/filter_xml.rs:89-138 | However deep And, Or and Not are nested: if on a row Rust converts every test that Go does, with the same truth, it converts every filter Go does, with the same truth |
| XmlFilters.DocumentsAgree | services/wms/src/filter_xml.rs:141-153 | The same for whole documents |
| XmlFilters.GoConvertsComplete | services/wms/src/filter_xml.rs:124-133 | The other direction: where the engines match on every test, Go converts exactly the filters whose tests can all be read, with two operands or more to And and Or and one to Not, and Rust converts all of these, with the same truth |
| XmlFilters.ConvertsExactly | services/wms/src/filter_xml.rs:89-138 | Rust converts exactly what has the parts its tests need: one such operand of And or Or is enough, the first element counts inside Not, and spatial tests never convert |
| XmlFilters.DropsExactly | services/wms/src/filter_xml.rs:124-132 | Rust leaves an operand out of And or Or if and only if there is one without these parts |
| XmlFilters.SpatialOperandDropped | services/wms/src/filter_xml.rs:124-132 | An And of a test and a spatial test has in Rust the truth of the first alone, and in Go that of both |
| XmlFilters.PlainDocumentsAgree | services/wms/src/filter_xml.rs:141-153 | A document of plain tests, whose properties have no prefix, literals are no numbers and patterns have no wildcards, with enough operands, is read by both engines and with the same truth in every database |
| XmlFilters.ComparisonsAgreeExactly | services/wms/src/filter_xml.rs:21-39 | A comparison of a property with a literal means the same in both engines, in every database, if and only if the name has no prefix and the literal is no number |
| XmlFilters.PatternsAgreeExactly | services/wms/src/filter_xml.rs:97-108 | A pattern test does if and only if the name has no prefix and the pattern no wildcards |
| XmlFilters.NullsAgreeExactly | services/wms/src/filter_xml.rs:120-123 | A null test does if and only if the name has no prefix |
| XmlFilters.RangesAgreeExactly | services/wms/src/filter_xml.rs:109-119 | A range test does if and only if the name has no prefix and neither bound is a number |
| XmlFilters.BoxesAgreeExactly | services/wms/src/filter_xml.rs:42-74 | A box of two corners does if and only if Go cannot read a corner, or the name has no prefix and Rust reads the four numbers as Go does |
| XmlLogic.FoldMatchesFlat | services/wms/src/filter_xml.rs:124-132 | Operands that have the same truth one by one have it folded from the left in Go and flat in Rust |
| XmlLogic.ChainedParses | libs/ogc-kit/filter/cql.go:180-214 | The parser builds the same left fold from the operands in brackets with AND or OR between them |
| Coverage.CellContainsPoint | services/wms/src/coverage.rs:138-180 | The cell computed for a point is the only one that contains it, and it is in the raster exactly when the point is inside the bounds, left and upper edge included |
| Coverage.SampleExactly | services/wms/src/coverage.rs:145-164 | Within 32-bit cell numbers, a cell yields its own pixel, which the data always holds, and nothing exactly when it is outside the raster or nodata |
| Coverage.SampleIsLowCell | services/wms/src/coverage.rs:145-164 | For all cell numbers: what is read is the cell of the low 32 bits of both numbers, if that is in the raster and the high bits cancel in the 64-bit index, and nothing otherwise |
| Coverage.SampleIsRightWhen | services/wms/src/coverage.rs:145-164 | So the answer is right if and only if the cell is in the raster, or the low bits name no cell of it or one that is nodata, or the high bits do not cancel |
| Coverage.IndexHasRoom | services/wms/src/coverage.rs:149-155 | No index that is looked at overflows: behind the wrapped index there is room for the samples of a pixel |
| Coverage.OnlyFarCellsAreWrong | services/wms/src/coverage.rs:146-148 | Only a cell number of 2^32 or more is read wrong |
| Coverage.FarCellIsRead | services/wms/src/coverage.rs:146-149 | With four samples to the pixel, the cell 2^62 columns away from any cell of the raster is outside it and read as that cell |
| Coverage.WrappedCellIsRead | services/wms/src/coverage.rs:149 | With one sample to the pixel, a cell far away in both directions is read in a raster of two pixels |
| Coverage.Render | services/wms/src/coverage.rs:168-195 | The image has at least one pixel each way, and every requested one shows what lies under its centre |
| Coverage.ShownExactly | services/wms/src/coverage.rs:168-195 | Every point shows the premultiplied pixel of the cell that contains it, and is left clear when it is outside the bounds or the cell is nodata |
| Coverage.NativeRenderingIsIdentity | services/wms/src/coverage.rs:138-195 | Rendering the bounds at the native size shows every cell in its own place |
| Coverage.PremultipliedFits | services/wms/src/coverage.rs:182-190 | No channel of a premultiplied pixel exceeds its alpha, so the image never refuses it |
| TiffDirectory.FindEntry | services/wms/src/coverage.rs:28-37 | On arbitrary bytes in either order the search ends, stays inside the file, and finds the first entry of the directory with the tag and type, or that there is none |
| TiffDirectory.ReadAsciiTag | services/wms/src/coverage.rs:15-47 | The text of that first entry, in the entry itself or elsewhere in the file, without zero characters and white space around it, or nothing when it lies outside |
| TiffDirectory.ReadGeoDoubles | services/wms/src/coverage.rs:52-92 | The doubles of that first entry, as the binary64 numbers their bytes are, or nothing when one of them lies outside the file |
| TiffDirectory.ReadDoubles | services/wms/src/coverage.rs:77-88 | Reads the doubles one by one and fails exactly when the last one does not fit |

## Left out

- Error messages: every error is a failure without its text.
- Bytes and characters: texts are sequences of characters; the Go lexer works on bytes and the Rust one on characters, which differ only in how they reject text outside ASCII outside string literals.
- Rust's `up` texts are compared as the Go ones: upper-casing is that of ASCII letters, the only ones identifiers contain.
- Operators, spatial relations and literal kinds are closed enumerations; the source keeps them as strings and `any`.
- Numeral conversion is one shared partial function with an exact value, a refusal or an overflow; rounding and the exact numeral syntax of the two standard libraries are not modelled, so engines are compared under that shared function.
- CqlRoundTrip.PrintedAgain: stated for texts without string literals inside geometries, because these lose their quotes when geometry text is collected, and for a printer of numerals that reading inverts.
- GoCql.CqlParser.Expect: compares the text of a token and not its kind, as the code does, so a string literal with the text of a bracket passes for the bracket.
- What PostGIS computes for spatial functions, LIKE and collation: uninterpreted, the same on both sides.
- SQL beyond conditions: the SELECT, UPDATE and DELETE statements around the WHERE clauses are plain text.
- MapFeatures.FetchFeaturesWhere: column lists, limits and the binding of values to the driver are not modelled.
- FeatureEdits.LockedRowsUntouched: holds at the instant of the lock check and when the ids could be queried; the edit runs after the lock mutex is released, a failing id query passes as no ids, and transactions are not atomic across operations.
- FeatureEdits.TxFilterWhere: the Filter element is written and decoded as a document of elements and texts, not as characters; for elements whose texts and attributes are plain, `WrittenFilters.EditReadsElement` shows that characters make no difference. Insertion of features is not modelled.
- XmlFilters.FiltersAgree: what the tests of a filter have to agree on is a hypothesis, and it is one direction; `XmlFilters.GoConvertsComplete` is the other. For plain comparisons, patterns, null tests, ranges and boxes of two corners the hypothesis is decided exactly; boxes given as one list of coordinates, which the engines split by different rules, are left at the two models of their code.
- GoFilterXml.Convert: reading and writing numbers are functions; namespaces are left out but for prefixes of written names, and Rust's document tree is the sequence of texts and elements as they stand.
- XmlTree.ReserializeThenDecode: written for token streams; `XmlText.WriteThenRead` is the same for characters.
- XmlText.WriteThenRead: which characters are printable or legal, what is a name, and what numeric character references stand for are parameters; comments, CDATA sections, processing instructions and document types, which are not written for plain trees, are refused by the reader. Exactness is stated for one text and one attribute value at a time; that a tree with others cannot come back whole by chance is not.
- AccessRules.InsertLimit: stated for constraints that parse, under any parser with the properties of `AccessRules.EnginesCompose`; what consumers do with a constraint that does not parse differs between services.
- AuthCache.ChecksAreFresh: rule changes only; roles are a fixed function of the user, and failures of the cache server or the database are left out, as is the service without a cache server.
- TileCache.TilesAreFresh: vector tiles only, because jpeg and png raster tiles share one key extension (`TileCache.KeyTextInjective`); file writes are atomic, the hash is injective, and failures of the counter server, which read as generation 0, are left out.
- Seeding.Seed: rendering outcomes are a parameter, and the request body is already parsed.
- Grid.TilesPartition: exact real arithmetic and any zoom level; the source computes in doubles and shifts 32-bit integers, so zoom levels above 30 are outside it.
- LockStore.Store.EnforceLocks: the target features are a parameter here; FeatureEdits.DoUpdate queries them.
- Coverage.Render: exact real arithmetic, and request and coverage in one reference system; images of 2^32 pixels or more, whose own pixel index would wrap, and cell numbers beyond 64 bits are not modelled.
- Coverage.WellFormed: lemmas about pixels take a raster whose pixels have a positive size and whose data holds a value for every sample, at most 2^32 of them; decoding is to provide the former and stays far below the latter. Beyond it the index and its neighbours could overflow.
- TiffDirectory.ReadAsciiTag: reading bytes as UTF-8 is a function; decoding the image itself is left out.
- HTTP handlers, authentication, sessions, styles, rendering, capabilities documents, catalogue administration, processes, metrics and the frontend.
