# Cultural venues ETL: extract helpers and master dataset

This project models the core of an ETL (extract, transform, load) pipeline. The pipeline downloads three public spreadsheets of
Argentine cultural venues: *bibliotecas* (libraries), *cines* (cinemas) and
*museos* (museums). It merges them into one master table of venues. The
project proves properties of that model in Dafny.

The project covers:

- **Extract**:
  - `make_url` turns a spreadsheet "edit" link into its CSV export link.
    When the link holds no "edit", the source logs an error and exits; the model returns `None`.
  - `make_filename` names a downloaded file `category-dd-mm-YYYY.csv`.
    The date is a parameter here.
- **Transform**, row level:
  - `get_file_category` reads a category back out of a file name.
  - `make_phone_number` joins `Cod_tel` and `Teléfono` into one phone number.
    It cuts each part at its first ".0".
  - `unify_province_names` fixes three province spellings.
  - `convert_text_nulls_to_nan` turns "sin dirección" and "s/d" into missing values, whatever their case and surrounding white space.
  - The postal-code step drops the last two characters of any code whose text holds ".0".
- **Transform**, `make_master_dataset`:
  - The three source frames are renamed **in place**.
  - The thirteen canonical columns are selected. A frame that lacks one of them fails the whole build.
  - The selected rows are concatenated in the order bibliotecas, cines, museos, then cleaned row by row.
  - Frames are a class whose `Rename` method updates the header. The build is a method with loops. It is proved against the functional definition `MasterOf`.

Cells are `Missing` (pandas NaN), `Int` (an integer column such as
`id_provincia`), or `Text`. A float is the text `str()` renders for it, e.g. "1425.0".

Python's `str.find`, `str.strip` (its full `isspace` set, the no-break
space U+00A0 included), `str.lower` and `str(int)` are modelled in
`strings.dfy`.

Three places where the code is followed over its written description:

- The postal-code step cuts the last two characters whenever ".0" occurs anywhere in the text, not only as a trailing suffix. `"12.034"` becomes `"12.0"`, and the step is not idempotent.
- The phone cleaning cuts at the first ".0", wherever it is.
- Renaming works by column name, through `dict(zip(...))` and `rename`, not by position. A label that is not a key of the mapping is kept as it is. Selection then fails exactly when a canonical label is absent after renaming (`Master.MasterShape`).

## Model

| member | source | states |
|---|---|---|
| Strings.Find | arculturaletl/transform.py:14 | `str.find`: -1 exactly when the pattern does not occur; otherwise an occurrence with none earlier |
| Strings.Strip | arculturaletl/transform.py:35 | `str.strip`: a contiguous slice whose removed ends are all white space and whose own ends are not |
| Strings.StripOfPadded | arculturaletl/transform.py:73 | `str.strip` removes any run of white space on either side of a value whose own ends are not white space |
| Extract.MakeUrl | arculturaletl/extract.py:37-44 | no result exactly when the url holds no "edit"; otherwise the url up to its first "edit" followed by "gviz/tq?tqx=out:csv" |
| Extract.MakeUrlResultHasNoEdit | arculturaletl/extract.py:39-41 | the export link holds no "edit", so converting it again is refused |
| Extract.MakeUrlOfEditLink | arculturaletl/extract.py:39-41 | for an address without "edit", address + "edit" + anything becomes address + the export suffix |
| Extract.MakeUrlRejectsExample | arculturaletl/extract.py:42-44 | a plain CSV link without "edit" is refused |
| Extract.DateStamp | arculturaletl/extract.py:17 | `%d-%m-%Y`: ten characters, dashes at 2 and 5, the fields read back as day, month and year |
| Extract.MakeFilename | arculturaletl/extract.py:14-17 | the category, a dash, the date stamp and ".csv", in that order |
| Transform.GetFileCategory | arculturaletl/transform.py:11-15 | no dash in the result; the prefix before the first dash, or without a dash the name minus its last character |
| Transform.CategoryOfFilename | arculturaletl/transform.py:11-15 | a dash-free category survives `make_filename` then `get_file_category` |
| Transform.CategoryWithDashIsCut | arculturaletl/transform.py:14-15 | a category holding a dash comes back cut at its first dash |
| Transform.CategoryWithoutDash | arculturaletl/transform.py:14-15 | "museos" comes back as "museo" |
| Transform.CleanPhonePart | arculturaletl/transform.py:35-38 | a prefix of the stripped text that holds no ".0": all of it when no ".0" occurs, else up to the first ".0" |
| Transform.MakePhoneNumber | arculturaletl/transform.py:29-53 | missing exactly when the number is missing; otherwise the cleaned number, preceded by the cleaned code and a space when the code is present |
| Transform.PhoneHasNoDecimalArtifact | arculturaletl/transform.py:29-53 | an assembled phone number never holds ".0" |
| Transform.JoinedHasNoDecimalArtifact | arculturaletl/transform.py:45 | joining two ".0"-free parts with a space creates no ".0" |
| Transform.CleanPhonePartOfFloat | arculturaletl/transform.py:35-38 | digits rendered as a float ("4567.0") clean back to the digits |
| Transform.PhoneOfFloats | arculturaletl/transform.py:33-47 | code "11.0" and number "4567.0" give "11 4567"; with no code, just the number |
| Transform.UnifyProvinceName | arculturaletl/transform.py:56-66 | the three listed spellings are replaced by their fixes; every other value passes through |
| Transform.UnifyProvinceNameIdempotent | arculturaletl/transform.py:56-66 | no fixed spelling is corrected again, so unifying twice is unifying once |
| Transform.UnifyKeepsSalta | arculturaletl/transform.py:56-66 | unification neither creates nor removes "Salta", so the Salta correction sees the source spelling |
| Transform.NullIfTextual | arculturaletl/transform.py:69-80 | missing exactly when missing before or a textual null after strip and lower; otherwise unchanged |
| Transform.MissingIsNotTextualNull | arculturaletl/transform.py:73 | `str(NaN)` is "nan", which is not a textual null |
| Transform.NullIfTextualIdempotent | arculturaletl/transform.py:69-80 | cleaning a cleaned cell changes nothing |
| Transform.TextualNullIgnoresPadding | arculturaletl/transform.py:73 | any run of white space on either side, U+00A0 included, does not change whether a value is a textual null |
| Transform.SdIsNull | arculturaletl/transform.py:72-74 | "S/D" becomes missing |
| Transform.SinDireccionIsNull | arculturaletl/transform.py:72-74 | "Sin Dirección" becomes missing |
| Transform.AddressIsKept | arculturaletl/transform.py:72-74 | a real address is kept |
| Transform.CleanPostalCode | arculturaletl/transform.py:124-125 | unchanged when the text holds no ".0"; otherwise text two characters shorter and a prefix of the original |
| Transform.PostalCodeOfFloat | arculturaletl/transform.py:123-125 | digits rendered as a float ("1425.0") come back as the digits |
| Transform.PostalCodeExamples | arculturaletl/transform.py:124-125 | "1425.0" gives "1425"; "1425" and a missing code are unchanged |
| Transform.PostalCodeCutsInside | arculturaletl/transform.py:124-125 | "12.034" gives "12.0"; "1.0.0" gives "1.0" and then "1", so the step is not idempotent |
| Transform.UnifyProvinceNames | arculturaletl/transform.py:114 | on a row only `provincia` changes; a listed misspelling becomes its fix from the table, and none is left afterwards |
| Transform.CorrectSaltaId | arculturaletl/transform.py:117-118 | no misnumbered Salta row remains and only `id_provincia` may change: a row spelled "Salta" with id 58 gets 66, every other row is unchanged |
| Transform.ConvertTextNullsToNan | arculturaletl/transform.py:121 | only `domicilio`, `web` and `mail` may change; none of them is a textual null afterwards; each is missing exactly when it was missing or a textual null, and is otherwise kept |
| Transform.CleanPostalCodeOf | arculturaletl/transform.py:124-125 | only `codigo_postal` may change: kept when its text holds no ".0", otherwise text two characters shorter and a prefix of the original |
| Transform.Str | arculturaletl/transform.py:35 | `str()`: text verbatim, a missing value "nan", an integer its decimal rendering |
| Strings.Lower | arculturaletl/transform.py:73 | `lower()`: same length, each character lowered on its own |
| Transform.AssemblePhone | arculturaletl/transform.py:110-111 | `telefono` is `make_phone_number` of `Cod_tel` and `Teléfono`; the other eleven columns are copied and the two phone columns are gone |
| Transform.CleanRow | arculturaletl/transform.py:108-125 | after all steps: the phone is assembled, no listed province misspelling, no misnumbered Salta row and no textual null in the contact fields remain |
| Transform.CleanRowFields | arculturaletl/transform.py:108-125 | each master field in terms of the source row: identifiers copied, province unified, Salta id corrected on the source spelling, contacts nulled, postal code cleaned, phone assembled |
| Master.DictOfZip | arculturaletl/transform.py:99 | `dict(zip(keys, values))`: every key of the result comes from the key list |
| Master.Relabel | arculturaletl/transform.py:99-102 | `rename`: same length; a label that is a key of the mapping is replaced by its value, any other label is kept |
| Master.DictOfZipDistinct | arculturaletl/transform.py:99 | with distinct keys, `dict(zip(keys, values))` maps each key to the value at its own position |
| Master.RelabelPositional | arculturaletl/transform.py:99-102 | renaming a header with distinct labels by the mapping zipped from it yields the canonical columns |
| Master.RenameExpectedHeaders | arculturaletl/transform.py:86-102 | each of the three expected headers renames exactly onto the canonical columns, in order |
| Master.IndexOf | arculturaletl/transform.py:104-106 | -1 exactly when the name is absent; otherwise the first position holding it |
| Master.MissingLabels | arculturaletl/transform.py:104-106 | holds exactly the wanted labels absent from the header |
| Master.SelectColumns | arculturaletl/transform.py:104-106 | fails exactly when a canonical column is absent, naming the absent labels; otherwise every row selected, in order |
| Master.SelectRowCanonical | arculturaletl/transform.py:104-106 | on the canonical header, selecting a row reads its cells where they stand |
| Master.SelectCanonical | arculturaletl/transform.py:104-106 | on the canonical header, selection succeeds and reads every row position by position |
| Master.MasterOf | arculturaletl/transform.py:104-127 | the build as a value: fails exactly when some source lacks a canonical column, naming a source and a non-empty list of absent labels; otherwise one master row per source row |
| Master.PipelineOfConcat | arculturaletl/transform.py:104-125 | cleaning row by row distributes over concatenation |
| Master.MasterShape | arculturaletl/transform.py:104-127 | fails exactly when some source lacks a column, naming the first such source and its missing labels; otherwise bibliotecas, then cines, then museos, no row dropped or added |
| Master.MasterOfExpectedHeaders | arculturaletl/transform.py:86-127 | with the expected headers the build succeeds: every source row, in source order, read by position and cleaned |
| Master.Frame.Rename | arculturaletl/transform.py:99-102 | the header is relabelled through the mapping; the rows are untouched |
| Master.RelabelAllSelected | arculturaletl/transform.py:99-102 | the renames that reach one frame apply one after another, in call order |
| Master.RenameInOrder | arculturaletl/transform.py:99-102 | each frame ends with its header relabelled by every rename that reached it, in call order; rows untouched |
| Master.ApplyToRows | arculturaletl/transform.py:110 | `apply` over rows: a new table whose row k is the function of row k |
| Master.CorrectSaltaIds | arculturaletl/transform.py:117-118 | exactly the rows spelled "Salta" with id 58 get id 66; all others are kept |
| Master.CleanPostalCodes | arculturaletl/transform.py:124-125 | every row's postal code is cleaned and nothing else changes |
| Master.CleanMaster | arculturaletl/transform.py:108-125 | steps 2 to 6 in their order equal the row-by-row pipeline |
| Master.MakeMasterDataset | arculturaletl/transform.py:83-127 | frames renamed in place, even when the build then fails; the result is `MasterOf` of the renamed frames |

## Left out

- `load_datasets`, the `__main__` block of `transform.py`, `extract_data`, `make_filepath`, `load.py` and both `main.py` files are left out. They do file, network, locale and database I/O.
- `make_filename` reads the clock. The date is a parameter of `Extract.MakeFilename`.
- Extract.DateStamp: valid dates only (years 1 to 9999, as `%Y` renders them with four digits).
- `make_url` logs and calls `sys.exit(1)` on a link without "edit". `Extract.MakeUrl` returns `None` instead.
- The source indexes the dictionary of frames by the keys bibliotecas, cines and museos. The model passes the three frames. A missing key (`KeyError`) is not modelled.
- Each column is one cell kind. pandas dtype inference is not modelled. If `id_provincia` were a float column, a Salta row with 58.0 would be corrected by pandas but not by `Master.CorrectSaltaIds`.
- Floating-point values are their `str()` text. The parsing of CSV text into numbers is not modelled.
- Strings.LowerChar: covers ASCII and Latin-1 only, which is all the textual-null test needs. The rest of Unicode case mapping is not modelled.
- Master.DictOfZip: a key repeated in the list keeps its last value by definition. The contract only proves the distinct-key case, which the three header lists satisfy.
- Master.SelectColumns: with duplicate labels the first matching column is read. pandas would return both columns.
- On an empty master frame pandas `apply` would not add the `telefono` column. The model has typed rows, so column layout is not modelled.
- The row index carried by the concatenation, and the column order of the frame pandas returns, are not modelled. The field order of `Venue` mirrors that column order.
- Which exception pandas raises for absent columns is not modelled. `SchemaError` names the failing source and its absent labels.
