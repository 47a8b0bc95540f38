# Contact spreadsheet import, modelled in Dafny

The repository is a small web form. It takes a spreadsheet of contacts and a
bearer token, and sends every row to a CRM's contacts API as one JSON
document. It then reports how many rows it imported. Its only structured
logic is `CriarContatos.criar_payload_em_lotes` with its helper
`check_value` (app.py). This project models that routine and proves what it
does:

- `contacts.dfy`, module `Contacts`: the row and payload records; `check_value`;
  the dictionary from contact-type description to id; the `or ""` applied to
  the row's `tipoContato`; the pure mapping of one row to its payload. All pure
  functions and lemmas.
- `batching.dfy`, module `Batching`: the chunk bounds that
  `range(0, total, tamanho_lote)` and `min(inicio + tamanho_lote, total)` produce,
  and proofs about them. The chunks are contiguous, non-empty, at most one
  batch long, ceil(N/B) in number, and cover every row exactly once, in order.
- `importer.dfy`, module `Importer`: class `ContactCreator`, which stands for
  `CriarContatos`. Its field `sent` is the log of submitted payloads.
  `PostContact` appends one payload to it. `CreatePayloadsInBatches` is the
  import itself: a `while` over chunk starts, a counter, and for each chunk
  the `while` over its rows in `SubmitChunk`. It is proved to submit
  `MapRows(BuildLookup(types), rows)` in row order, to return `|rows|`, and to
  visit exactly the chunks `Chunks(|rows|, batchSize)`.

Cells are `Cell = Null | NaN | Val(Scalar)`, where `Scalar` is text or a whole
number. `check_value` (`pandas.isna`) treats both `Null` and `NaN` as missing.
Python truthiness, used by `row['tipoContato'] or ""`, treats `None`, `""` and
`0` as false and NaN as true. So a NaN description is passed to the JSON
encoder as NaN, not as `""`.

Two things the code does that a reader might not expect:

- An unmatched non-empty description is sent as it is, with a null id. A falsy
  description becomes `""`, and `""` is then looked up like any other key: if
  the API lists a type whose description is `""`, its id is used.
- Every field that goes through `check_value` turns a missing value into `""`.
  The `tiposContato` description does not go through `check_value`, so it is
  NaN when the cell is NaN.

## Model

| member | source | states |
|---|---|---|
| Contacts.CheckValue | app.py:79-80 | a missing cell (None or NaN) gives `""`; any other value is returned unchanged |
| Contacts.CheckValueBlank | app.py:79-80 | a field comes out `""` exactly when its cell was missing or already `""` |
| Contacts.CheckValueIdempotent | app.py:79-80 | applying check_value again to its own result changes nothing |
| Contacts.BuildLookup | app.py:12 | the dictionary's keys are exactly the descriptions in the type list |
| Contacts.LookupLastWins | app.py:12 | a description is a key iff some listed type has it, and its id is the one of the LAST such type (later duplicates overwrite earlier ones) |
| Contacts.OrEmpty | app.py:22 | a truthy description is kept as it is; a falsy one (None, `""`, 0) becomes `""` |
| Contacts.TypeIdOf | app.py:23 | `dict.get(..., None)`: an id exactly when the description is text that is a key, and then the key's id |
| Contacts.MapRowTypeEntry | app.py:22-70 | `tiposContato` has exactly one entry; its description is the row's own when truthy and `""` otherwise; its id is the looked-up one or null |
| Contacts.MapRowTypeId | app.py:12-23 | stated against the type list: the id is null iff no listed type has the description, else the id of the last listed type with it |
| Contacts.ClienteExample | app.py:12-70 | a row of type "Cliente" against `[{5, "Cliente"}]` gets `tiposContato == [{5, "Cliente"}]` |
| Contacts.MapAddress | app.py:41-58 | an address block's seven fields (`endereco`, `cep`, `bairro`, `municipio`, `uf`, `numero`, `complemento`) are its seven cells passed through check_value, with the city column feeding `municipio` |
| Contacts.MapRow | app.py:22-71 | the payload dict: one `tiposContato` entry whose description is the row's own when truthy and `""` otherwise, and which has an id only for a text description; `endereco.geral` from the *Geral columns and `endereco.cobranca` from the *Cobranca columns, each through check_value |
| Contacts.MapRowIdentityFields | app.py:27-39 | the thirteen flat fields are their columns passed through check_value |
| Contacts.MapRowFields | app.py:26-64 | every one of the 30 scalar payload fields is its column passed through check_value |
| Contacts.MapRowMissingBecomesBlank | app.py:27-63 | a missing cell is sent as `""`, never null or NaN; a present cell is sent unchanged |
| Contacts.MapRowLossless | app.py:27-63 | when no scalar cell is missing, the row's cells can be read back from the payload |
| Contacts.MapRows | app.py:21-71 | one payload per row |
| Contacts.MapRowsPrefixStep | app.py:21-75 | mapping one more row appends its payload and keeps the earlier payloads |
| Contacts.MapRowsAppend | app.py:17-21 | the payloads of the rows before a chunk followed by those of the chunk are the payloads of the rows up to the chunk's end |
| Batching.ChunksFrom | app.py:17-18 | the chunks `range` and `min` give from a start: none exactly when the start has reached the total, and never more chunks than rows left |
| Batching.Chunks | app.py:17-18 | the chunks of the whole table: none exactly when the table is empty, and never more chunks than rows |
| Batching.ChunksFromCount | app.py:17 | from a start below the total, the number of chunks c satisfies start + (c-1)·B < N <= start + c·B |
| Batching.ChunksFromAt | app.py:17-18 | the k-th chunk from a start begins at start + k·B, below N, and ends at min(start + k·B + B, N) |
| Batching.ChunksFromCover | app.py:17-19 | the chunks from a start visit rows start .. N-1 once each, in order |
| Batching.ChunksFromStep | app.py:17-19 | moving past one chunk moves it from the chunks still to visit to the chunks visited |
| Batching.ChunkCount | app.py:14-17 | no chunks iff there are no rows; otherwise ceil(N/B) chunks, as (c-1)·B < N <= c·B |
| Batching.ChunkShape | app.py:17-19 | chunk k starts at k·B, is non-empty and at most B long; each ends where the next begins; all but the last have B rows; the last ends at N |
| Batching.ChunksPartition | app.py:17-21 | all the chunks together are rows 0 .. N-1, each exactly once, in order |
| Batching.TwentyThreeRowsExample | app.py:17-19 | 23 rows in chunks of 10 give the chunks [0,10), [10,20), [20,23) |
| Importer.ContactCreator.constructor | app.py:8-9 | the token is stored and nothing has been submitted |
| Importer.ContactCreator.PostContact | app.py:82-86 | one submission appends the payload to the log; the response is not inspected |
| Importer.ContactCreator.CreatePayloadsInBatches | app.py:11-77 | returns the number of rows; submits exactly the mapped rows, one per row in row order; every row is mapped under the one lookup `BuildLookup(types)` built before the loops; visits exactly `Chunks(N, B)` |
| Importer.ContactCreator.SubmitChunk | app.py:21-75 | the rows of one chunk are mapped and submitted in order, and the counter goes up by one per row |
| Importer.BatchStep | app.py:17-21 | one pass of the outer loop moves the chunk to the visited ones and extends the log from the payloads of the rows before the chunk to those of the rows up to its end |

## Left out

- The Flask routes `index`, `loading` and `success`, and `app.run` (app.py:95-132): web plumbing and templates. `index` calls a method `criar_payload` that does not exist.
- The HTTP side of `post_contatos` and `get_tipo_contato` (app.py:82-92): the URLs, the bearer header, the request, printing the response and parsing its JSON. The type list is an input, and a POST is an append to `sent`.
- Loading the spreadsheet with `pd.read_excel` and the DataFrame slicing machinery: rows are a plain sequence, and a chunk is a half-open index range.
- A missing spreadsheet column (a `KeyError` in the source): the row is a record with every column, so a row without a column cannot be expressed.
- Floating-point cells, dates and timestamps: a present cell is text or a whole number. So the model does not capture `5.0` versus `5` as dictionary keys, or how pandas types a date column.
- How a NaN description is written out as JSON: the model keeps it as the value `NaN` in the payload handed to `PostContact`.
- Importer.ContactCreator.PostContact: a POST that raises aborts the whole import in the source, and no count is returned. That happens on a transport error, or when the JSON encoder refuses the payload: requests 2.27 and later encode with `allow_nan=False`, so a NaN description raises. The model assumes every POST returns, so `count == |rows|` holds only for runs in which no POST raises.
- Non-positive batch sizes: `range` with step 0 raises, and a negative step visits nothing. `CreatePayloadsInBatches` requires a positive batch size. The only caller passes 10.
