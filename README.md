# Best-effort ingestion of the Sygio dashboard

The dashboard (`app.py`) reads two kinds of JSON export from a data folder:
a client registry (`clientes.json`) and any number of transaction exports
(`transacoes_*.json`). The files are often damaged, for instance two arrays
written one after the other. So every file goes through the same three-tier
decode:

1. `json.loads` on the whole text;
2. `json.loads` again, with every `][` turned into `,`;
3. the lenient extractor `extrair_objetos_json`. It walks the stripped text
   with a cursor, skipping whitespace, `,` and `]`. At each other position it
   asks `JSONDecoder.raw_decode` for one value: it keeps a value and jumps past
   it, or it moves on by one character.

From the registry, `carregar_mapa_clientes` builds a map from client id to a
category ("Público", or "Privado" when the client's organisation has id 4)
and an upper-cased name. From the exports, `carregar_dados` normalises every
transaction record into one flat row. Each field of the row comes from a
fixed fallback chain built on Python truthiness. A record without a date, or
with a value that is not positive, is dropped. All rows are gathered in the
order the files are listed, then in record order within each file. Month
numbers are finally shown through the fixed labels "01-Jan" … "12-Dez".

The project models this core in Dafny.

- `wrappers.dfy`: `Option`.
- `pyjson.dfy`: decoded values (`Json`) and the Python semantics the code
  applies to them:
  - truthiness and `or`;
  - `dict.get`;
  - dictionary keys (`True == 1 == 1.0`; lists and dicts cannot be hashed);
  - `== 4`;
  - the result of `float(...)`, including infinities and NaN.
- `pytext.dfy`: `str.isspace`, `strip`, `upper` (ASCII and Latin-1), the
  substring test `in`, and `replace('][', ',')`.
- `extractor.dfy`: the extractor.
  - The function `Spans` defines, step by step, what the cursor recovers.
  - The method `ExtractObjects` is the loop itself and is proved equal to
    that definition.
  - Lemmas state ordering, coverage and a concatenation round trip.
- `ingest.dfy`: the three-tier decode. The library parsers and `float`/`str`
  are parameters of type `Runtime`.
- `clients.dfy`: the registry loop (method `LoadClientMap`), the per-entry
  rule `ClientEntry`, and a by-key reference definition `LatestFor` of what
  the map holds.
- `transactions.dfy`: the per-record rule `Normalize`, the record and file
  loops (methods `RecordLoop`, `LoadFile`, `LoadNext`, `LoadFiles`,
  `LoadData`), and the filter, fallback, order and isolation properties.
- `months.dfy`: `MESES_ORDENADOS` and the enumerated month-label map.

Exceptions are modelled as outcomes: `Raise`/`Raised` for one entry or
record, and `None` for a parse that fails. An exception in the registry loop
ends the loop, and the entries stored before it are kept. An exception in a
transaction record ends the loop of its own file only.

The model follows the code as written. Behaviour worth knowing:

- **Partial client map.** The registry loop's `except: pass` returns the map
  built so far, not an empty map (app.py:78-79).
- **Non-numeric values raise.** A value that does not convert does not
  default to 0: `float(...)` raises, and that abandons the rest of the file
  (app.py:110, 138). The value is converted before the date is tested, so this
  also happens to a record without a date.
- **Rows kept when a file fails.** When a record raises, the rows already
  produced from the same file are kept, because they were appended in place
  (app.py:128, 138).
- **NaN passes the filter.** A value of NaN is not dropped: `valor <= 0` is
  false for NaN (app.py:112).
- **The `][` branch is dead.** The branch at app.py:44 can never be taken.
  The skip loop at app.py:37 stops only on a character that is not `]`. The
  method states this with an `assert false` in that branch.
- **Concatenated arrays.** For `[...][...]`, the repair tier recovers both
  arrays whenever the repaired text parses. When it does not and the
  extractor runs, what happens to the second array depends on the text after
  its `[`. If that array decodes on its own, the extractor reads it as one
  list value and the record loop skips it, so its records are lost. If it
  does not decode, the decoder fails at its `[`, the cursor moves on by one,
  and its objects are recovered one by one.
- **An empty array before another.** For `[][{...}]` the repair turns `[][`
  into `[,` (app.py:58, 100), consuming the second array's `[`. The result
  `[,{...}]` is not JSON, so the extractor runs. It skips the `]` at index 1
  and decodes the list `[{...}]` at index 2 as one value. The record loop
  skips that value, so none of the records are read.
- **Object payloads.** The per-file shape rule wraps a lone object found under
  `items` as a one-record list. An object payload without `items` has no
  records (app.py:103-104).

## Model

| member | source | states |
|---|---|---|
| PyJson.Or | app.py:109 | `a or b` is `a` when `a` is truthy, else `b`; the result is truthy iff either operand is |
| PyJson.Truthy | app.py:73 | Python's `bool(x)`: None, False, zero, and the empty string, list and dict are false. The rules built on it are stated by PyJson.Or, Clients.ClientEntryRule and Transactions.DropRule |
| PyJson.GetOr | app.py:66 | `dict.get(k, default)`: a present key's value is kept even when it is falsy, unlike `get(k) or default`, as PyJson.GetDefaultVersusOr states |
| PyJson.Get | app.py:66 | `dict.get(k)`: a missing key reads as None, exactly like a stored null (PyJson.GetDefaultVersusOr) |
| PyJson.GetDefaultVersusOr | app.py:109-110 | `d.get(k, x)` and `d.get(k) or x` agree exactly when the key is missing, its value is truthy, or its value is `x` itself; `d.get(k)` is None exactly when the key is missing or holds null |
| PyText.IsSpace | app.py:34 | `str.isspace()` over the characters CPython classifies as whitespace; PyText.StripLeftTrims, PyText.StripRightTrims and Extractor.SpansSkipNoise state how `strip` and the skip loop (app.py:37) use it |
| PyText.StripLeft | app.py:34 | `str.lstrip()`; PyText.StripLeftTrims characterises it |
| PyText.StripRight | app.py:34 | `str.rstrip()`; PyText.StripRightTrims and PyText.StripRightUnique characterise it |
| PyJson.KeyOf | app.py:74 | a value can be used as a dict key exactly when it is not a list or a dict |
| PyJson.EqualsFour | app.py:70 | Python's `== 4` on a decoded value: true for the int 4 and the float 4.0 only; Clients.CategoryRule states the category it decides |
| PyJson.AtMostZero | app.py:112 | the comparison `valor <= 0`, false for NaN and +inf and true for -inf; Transactions.DropRule and Transactions.ItemRowsValid state its effect on the filter |
| PyText.StripLeftTrims | app.py:34 | `lstrip` removes exactly the leading whitespace run: the result is a suffix, starts with a non-space or is empty, and everything removed is whitespace |
| PyText.StripRightTrims | app.py:34 | `rstrip` removes exactly the trailing whitespace run: the result is a prefix ending in a non-space or empty, and everything removed is whitespace |
| PyText.StripRightUnique | app.py:34 | any prefix that ends in a non-space and leaves only whitespace behind is the `rstrip` result |
| PyText.Strip | app.py:34 | `str.strip()`: both whitespace runs removed; the result is characterised by PyText.StripLeftTrims and PyText.StripRightTrims |
| PyText.UpperChar | app.py:76 | one character upper-cased as `str.upper` does for ASCII and Latin-1, `ß` becoming `SS`; other characters are kept (see "## Left out") |
| PyText.Upper | app.py:76 | `str.upper()` applied character by character; its properties are PyText.UpperAppend, PyText.UpperIdempotent and PyText.UpperKeepsSubstring |
| PyText.UpperAppend | app.py:76 | `upper` distributes over concatenation |
| PyText.UpperIdempotent | app.py:76 | upper-casing an upper-cased string changes nothing |
| PyText.ContainsAppend | app.py:135 | a substring of either part is a substring of the concatenation |
| PyText.Contains | app.py:135 | Python's `p in s` for strings; PyText.ContainsAppend, PyText.UpperKeepsSubstring and Transactions.PixRule state its use in the PIX test |
| PyText.UpperKeepsSubstring | app.py:135 | if `p` occurs in `s`, then `upper(p)` occurs in `upper(s)` |
| PyText.ReplaceBracketPairs | app.py:58 | `str.replace('][', ',')`, left to right without overlap; its properties are PyText.ReplaceBracketPairsSpec and PyText.ReplaceWithoutPairs |
| PyText.ReplaceBracketPairsSpec | app.py:58 | the repaired text is no longer than the original, is empty iff the original is, begins with `,` when the original begins with `][` and with the original's first character otherwise, and contains no `][` |
| PyText.ReplaceWithoutPairs | app.py:58 | a text without `][` is left unchanged by the repair |
| PyText.NoPairAfter | app.py:100 | prefixing one character to a text without `][` creates none, unless the character is `]` and the text starts with `[` |
| PyText.RepairAfterEmptyArray | app.py:100 | the repair turns `[][` followed by any text into `[,` followed by that text repaired, so the second array loses its opening bracket |
| Extractor.Spans | app.py:36-45 | the cursor loop as a recursive definition; its steps are Extractor.SpansSkipNoise, SpansMiss and SpansHit, its shape Extractor.SpansOrdered and SpansSkipOnlyFailures |
| Extractor.Extract | app.py:30-46 | the extractor's result; Extractor.ExtractObjects computes it, and Extractor.ExtractRecovers and Extractor.ExtractJoin state its properties |
| Extractor.IsNoise | app.py:37 | the characters the skip loop passes: whitespace, `,` and `]`; Extractor.SpansSkipNoise and Extractor.SpansSkipRun state the skip |
| Extractor.StartCursor | app.py:35 | the cursor starts at 1 past a leading `[` and at 0 otherwise; Extractor.ExtractObjects and Extractor.ExtractRecovers state the scan from there |
| Extractor.ExtractSpans | app.py:34-45 | the spans the cursor recovers from the stripped text; Extractor.ExtractRecovers states their order and coverage |
| Extractor.SpansSkipNoise | app.py:37 | the cursor steps over whitespace, `,` and `]` without recovering anything |
| Extractor.SpansMiss | app.py:43-45 | at a position where the decode fails the cursor moves on by one |
| Extractor.SpansHit | app.py:40-42 | a value decoded at the cursor is recovered first, and the cursor continues at its end |
| Extractor.ExtractObjects | app.py:30-46 | the loop terminates on every text, never fails, and returns exactly the values the cursor definition recovers from the stripped text, starting past a leading `[` |
| Extractor.SpansOrdered | app.py:36-42 | every recovered value is the decoder's result at a non-noise position at or after the cursor, and values come in text order without overlap |
| Extractor.SpansSkipOnlyFailures | app.py:37-45 | every non-noise position not inside a recovered value is one where the decoder fails |
| Extractor.ExtractRecovers | app.py:34-45 | the extractor's result is ordered, non-overlapping decoder results past the optional leading `[`, and it skips a non-noise position only where decoding fails |
| Extractor.SpansSkipRun | app.py:37 | a run of noise characters is passed without recovering anything |
| Extractor.JoinHead | app.py:36-42 | in a run of serialised objects and separators that the decoder reads back, it reads the first object at the cursor, only noise follows it, and the rest of the run starts after that noise |
| Extractor.HitThenRun | app.py:37-42 | a value decoded at the cursor followed by a run of noise is recovered first, and the cursor continues after the noise |
| Extractor.SpansOfJoin | app.py:36-45 | from the start of a run of serialised objects separated by noise, each of which the decoder reads back wherever it occurs, exactly those objects are recovered in order |
| Extractor.StripRightAppend | app.py:34 | stripping the right of a concatenation only touches the right part when that part keeps something |
| Extractor.StripRightOfJoin | app.py:34 | stripping a run of serialised objects trims only the last separator, and the text still starts with `{` |
| Extractor.ExtractJoin | app.py:30-46 | round trip: serialised objects that the decoder reads back, concatenated with only whitespace, `,` or `]` between them (possibly nothing), are recovered exactly and in order |
| Extractor.LayoutExists | app.py:40-42 | the round trip's hypothesis is met by two distinct objects `{"id": 1}` and `{"id": 2}`, non-empty separators and a decoder that reads each back wherever it occurs; the extractor then recovers exactly those two objects |
| Ingest.ToFloat | app.py:110 | `float` raises exactly on None, lists, dicts and strings the parser rejects, and converts an int to the same number |
| Ingest.PyStr | app.py:126 | Python's `str(x)`: a string is itself, any other value is rendered by the runtime; Transactions.NameFallbacks and Transactions.PixRule state its uses |
| Ingest.OrZeroConverts | app.py:110 | in `float(x or 0)` a falsy `x` becomes 0.0 and cannot raise, a truthy one converts as it would alone, so only a truthy `x` that `float` rejects raises |
| Ingest.BestEffort | app.py:98-101 | the decode chain `loads`, then `loads` of the repaired text, then `{'items': extracted values}`; Ingest.BestEffortTiers states its tiers |
| Ingest.DecodeBestEffort | app.py:98-101 | the three-tier decode as run by the loaders equals the decode chain `BestEffort` |
| Ingest.BestEffortTiers | app.py:56-59 | the chain stops at the first tier that parses; without `][` in the text the repair tier changes nothing; when both parses fail the result is `{'items': extracted values}` |
| Clients.FirstRaise | app.py:64-78 | the index of the first entry that raises: every entry before it does not raise, and the entry at it does |
| Clients.CategoryOf | app.py:69-71 | the category of one entry; Clients.CategoryRule states it |
| Clients.ClientEntry | app.py:64-77 | one pass of the registry loop; Clients.ClientEntryRule states when it skips, stores or raises |
| Clients.ClientList | app.py:61-62 | the registry's list of entries; Clients.ClientListShape states it |
| Clients.FoldEntries | app.py:64-78 | the registry loop as a fold; Clients.FoldEntriesStops, FoldEntriesByKey and FoldEntriesNamesUpper state its result |
| Clients.ClientMap | app.py:48-79 | the client map of a registry file; Clients.ClientMapContents states its keys and records, and Clients.LoadClientMap computes it |
| Clients.LoadClientMap | app.py:61-77 | the registry loop returns the map `ClientMap` defines, including the partial map when an entry raises |
| Clients.CategoryRule | app.py:69-71 | a client is private iff `organizacao` is an object whose `id` equals 4; otherwise, and when `organizacao` is missing or not an object, it is public |
| Clients.ClientEntryRule | app.py:64-77 | an entry is skipped iff it is not an object or its id is falsy; it stores a record iff its id is hashable and its `nome` is a string (default ""), under the id's key, with the category rule's category and the upper-cased name |
| Clients.FoldEntriesStops | app.py:53-78 | the loop stops at the first entry that raises, keeping the map built so far; later entries have no effect |
| Clients.FoldEntriesByKey | app.py:73-77 | over entries that do not raise, a key is in the map iff the start map or some entry stores it, with the record of the latest such entry |
| Clients.LatestForIsLast | app.py:73-77 | the reference definition yields the record of the last entry storing the key, and nothing when no entry stores it |
| Clients.ClientMapContents | app.py:48-79 | a missing registry gives the empty map; otherwise key `k` is present iff one of the entries before the first raising one stores it, and it holds the record of the last such entry |
| Clients.FoldEntriesNamesUpper | app.py:76 | every stored name is already upper-case |
| Clients.ClientListShape | app.py:61-62 | a list payload is taken as it is, an object contributes its `items` when they are a list, and anything else contributes nothing |
| Transactions.ItemRowsAt | app.py:106-137 | one record's step of the record loop: a dropped record adds nothing, an emitted one adds its row in front, a raising one ends the loop |
| Transactions.DateOf | app.py:109 | the record's date by its fallback chain; Transactions.FieldFallbacks states it |
| Transactions.AmountOf | app.py:110 | the record's value before conversion by its fallback chain; Transactions.FieldFallbacks states it |
| Transactions.FeeOf | app.py:136 | the fee before conversion by its fallback chain; Transactions.FieldFallbacks states it |
| Transactions.ClientIdOf | app.py:114-116 | the client id by its fallback chain; Transactions.FieldFallbacks states it |
| Transactions.ClientNameOf | app.py:120-126 | the display name by its fallback chain; Transactions.NameFallbacks states it |
| Transactions.PixFlag | app.py:135 | the PIX flag; Transactions.PixRule and Transactions.NoPaymentNoPix state it |
| Transactions.PaymentOf | app.py:135 | `str(t.get('forma_pagamento', ''))`; Transactions.PixRule and Transactions.NoPaymentNoPix state the flag it decides |
| Transactions.Lookup | app.py:118-120 | `mapa_clientes.get(cliente_id, {})` as the map's record or nothing; Transactions.MappedClient and Transactions.UnmappedClient state its effect on the row |
| Transactions.CategoryFor | app.py:118-119 | the category an id resolves to: the map's, else public; Transactions.MappedClient and Transactions.UnmappedClient state it |
| Transactions.Normalize | app.py:107-137 | the per-record rule; Transactions.DropRule, EmittedRow, MappedClient, UnmappedClient, NoAmountDropped and NoDateDropped state it |
| Transactions.TransactionItems | app.py:103-104 | the per-file records; Transactions.TransactionItemsShape states it |
| Transactions.ItemRows | app.py:106-138 | the record loop's rows; Transactions.RecordLoop computes them, and ItemRowsUpToRaise, ItemRowsAppend and ItemRowsValid state them |
| Transactions.FileRows | app.py:96-138 | one file's rows, none for a file that cannot be read; Transactions.LoadFile computes them |
| Transactions.AllRows | app.py:91-138 | every file's rows in file order; Transactions.LoadFiles computes them, and AllRowsAppend and AllRowsValid state them |
| Transactions.LoadedRows | app.py:82-138 | the loader's result; Transactions.LoadData computes it |
| Transactions.RecordLoop | app.py:106-137 | the record loop returns exactly the rows of its records under the per-record rule: dropped records add nothing, emitted ones add their row in order, and a raise ends the loop keeping the rows so far |
| Transactions.FirstRaised | app.py:106-138 | the index of the first record that raises: every record before it does not raise, and the record at it does |
| Transactions.AllRowsAt | app.py:91-138 | the rows of the files from index `i` on are those of file `i` followed by those of the rest |
| Transactions.AllRowsStep | app.py:91-138 | the loader's invariant survives one file: the rows so far, then that file's rows, then the rows of the later files, are the rows so far followed by those of the files from this one on |
| Transactions.LoadFile | app.py:96-137 | decoding one export and running its record loop yields exactly `FileRows` of that file, including the rows kept when a record raises |
| Transactions.LoadNext | app.py:91-138 | one pass of the file loop: a file that cannot be read adds nothing, any other adds its rows, so that the rows so far followed by the rows of the remaining files do not change |
| Transactions.LoadFiles | app.py:91-138 | the file loop yields exactly the rows of every file in file order |
| Transactions.LoadData | app.py:82-138 | the loader yields exactly `LoadedRows`: the client map, then every file's rows in file order, unreadable files contributing nothing |
| Transactions.FieldFallbacks | app.py:109-116 | the date is `data_cadastro` if truthy else `data_transacao`; the amount the first truthy of `valor_bruto`, `valor_total`, else 0; the fee `taxa_administrativa_credenciado` if truthy else 0; the client id `cliente_id` if truthy, else the embedded `cliente` object's `id` |
| Transactions.NameFallbacks | app.py:120-126 | a non-empty name from the map wins; else an embedded `cliente` object's upper-cased `nome` (default "Cliente Desconhecido", raising when it is not a string); else "Cliente " and the id |
| Transactions.PixRule | app.py:135 | `tem_pix` is 0 or 1, 1 iff "PIX" occurs in the upper-cased payment method, and any spelling whose upper case is "PIX" sets it |
| Transactions.NoPaymentNoPix | app.py:135 | a record without `forma_pagamento` has `tem_pix` 0 |
| Transactions.DropRule | app.py:107-112 | non-objects are dropped; a value that does not convert raises; otherwise a record is dropped iff its date is falsy or its value is at most 0 |
| Transactions.NoAmountDropped | app.py:110-112 | a record with neither `valor_bruto` nor `valor_total` truthy is dropped whatever its other fields are |
| Transactions.NoDateDropped | app.py:109-112 | a record with neither date field truthy is dropped once its value converts |
| Transactions.EmittedRow | app.py:128-137 | an emitted row comes from an object record, passes the filter, and each field is the value of its fallback chain |
| Transactions.MappedClient | app.py:118-122 | for an id found in the client map, the row takes the map's category, and its name when that name is not empty |
| Transactions.UnmappedClient | app.py:118-119 | for an id missing from the map, the row is public |
| Transactions.EmitsAppend | app.py:106-137 | the rows of non-raising records are those of the parts of a concatenation, in order |
| Transactions.ItemRowsUpToRaise | app.py:106-138 | the record loop yields, in input order, the rows of the records before the first raising one and nothing after |
| Transactions.ItemRowsAppend | app.py:106-138 | over a concatenation, the rows are those of both parts in order when the first part does not raise, and only the first part's otherwise |
| Transactions.ItemRowsValid | app.py:112-137 | every row of the record loop has a truthy date, a value that is not at most 0 and a 0/1 PIX flag |
| Transactions.AllRowsAppend | app.py:91-138 | each file contributes its own rows, unaffected by the others: the rows of a concatenated file list are those of both parts in order |
| Transactions.AllRowsValid | app.py:91-138 | every gathered row passes the filter |
| Transactions.TransactionItemsShape | app.py:103-104 | a list payload is its records; an object gives its `items` list, a lone object under `items` as one record, and nothing otherwise; any other payload has no records |
| Transactions.ExampleClientMap | app.py:64-77 | the registry `[{"id": 1, "nome": "acme", "organizacao": {"id": 4}}]` maps id 1 to a private client "ACME" |
| Transactions.ExampleNormalize | app.py:106-137 | the record of client 1 dated "2024-03-05", valued "150.00" and paid by "PIX" is emitted as a private row for "ACME" with value 150, the PIX flag and fee 0 |
| Transactions.ExamplePix | app.py:135 | the payment method "PIX" sets the PIX flag |
| Transactions.OneRecordExample | app.py:82-137 | that registry and a one-record export yield exactly that single row |
| Months.EnumeratedLookup | app.py:151 | the enumerated map holds exactly the keys 1 to n, key `k` with the list's entry at index `k - 1` |
| Months.Enumerated | app.py:151 | `{i + 1: x for i, x in enumerate(xs)}`; Months.EnumeratedLookup states its keys and entries |
| Months.MonthLabels | app.py:151 | the month-label map of `MESES_ORDENADOS`; Months.MonthLabel states its lookups |
| Months.MonthNames | app.py:25-26 | the twelve month labels; Months.LabelLayout and Months.LabelsOrdered state their form and order |
| Months.MonthLabel | app.py:151 | a month number has a label exactly when it is in 1..12, and the label is `MESES_ORDENADOS[m - 1]` |
| Months.LabelLayout | app.py:25-26 | each label is six characters, has `-` at index 2, and starts with its month's two digits |
| Months.LabelsOrdered | app.py:25-26 | the labels are in month order and distinct months have distinct labels |
| Months.MarchLabel | app.py:151 | month 3 is labelled "03-Mar" |

## Left out

- The Streamlit page, the charts and the layout (app.py:1-22, 161-278): user
  interface only.
- pandas (app.py:143-159). This covers building the table, `pd.to_datetime`
  with `dropna`, the `ano`/`mes` columns, pivots and reindexing. The date of a
  row stays the opaque decoded value. A month number is taken as given, and
  only its label is modelled.
- File I/O and caching: `os.path.exists`, `open`/`read`, `glob`, the
  `st.cache_data` cache and the progress bar (app.py:49-55, 81-97). Each file
  is given as its text, or as `None` when it is missing or cannot be read. The
  files come in the order `glob` lists them.
- The internals of `json.loads`, `JSONDecoder.raw_decode`, `float(str)` and
  `str(x)` are foreign library code. They enter the model as the fields of
  `Runtime`. Every member assumes of `raw_decode` only that a value it returns
  ends after the cursor and within the text. The round-trip lemmas
  (`Extractor.JoinHead`, `Extractor.SpansOfJoin`, `Extractor.ExtractJoin`)
  also take `Layout` as hypothesis: the decoder reads each listed serialised
  object back wherever it occurs, whatever follows it. `Extractor.LayoutExists`
  shows a decoder, serialiser, two distinct objects and separators that meet
  it.
- JSON's non-standard `NaN`/`Infinity` literals are not decoded values of
  `Json`. Strings spelling them reach `float` through the parser oracle.
- Ingest.ToFloat: a JSON real is kept as an exact real. Rounding to double
  precision, and `OverflowError` for huge integers, are not modelled.
- PyText.UpperChar: upper-casing follows Python only for ASCII and Latin-1;
  other characters are left as they are.
- Extractor.ExtractJoin: the round trip covers objects only, whose
  serialisation starts with `{`. A leading `[` would be taken as the opening
  of an enclosing array and skipped.
- The fees, rates, revenue estimates and totals of the report
  (app.py:155-159, 237-267): floating-point arithmetic for presentation.
