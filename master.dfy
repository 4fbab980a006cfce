/** `make_master_dataset` (arculturaletl/transform.py): the three source
    frames are renamed in place onto the canonical columns, selected,
    concatenated (bibliotecas, cines, museos) and cleaned row by row. */
module Master {
  import opened Wrappers
  import opened Transform

  /** The canonical columns every source is renamed onto. */
  const Columns: seq<string> := [
    "cod_localidad", "id_provincia", "id_departamento", "categoria", "provincia",
    "localidad", "nombre", "domicilio", "codigo_postal", "Cod_tel", "Teléfono", "mail", "web"]

  /** The source headers, position by position against `Columns`. */
  const BibliotecasColumns: seq<string> := [
    "Cod_Loc", "IdProvincia", "IdDepartamento", "Categoría", "Provincia",
    "Localidad", "Nombre", "Domicilio", "CP", "Cod_tel", "Teléfono", "Mail", "Web"]
  const CinesColumns: seq<string> := [
    "Cod_Loc", "IdProvincia", "IdDepartamento", "Categoría", "Provincia",
    "Localidad", "Nombre", "Dirección", "CP", "cod_area", "Teléfono", "Mail", "Web"]
  const MuseosColumns: seq<string> := [
    "Cod_Loc", "IdProvincia", "IdDepartamento", "categoria", "provincia",
    "localidad", "nombre", "direccion", "CP", "cod_area", "telefono", "Mail", "Web"]

  /** Python's `dict(zip(keys, values))`: pairs up to the shorter list; of
      two pairs with the same key the later one is kept. */
  function DictOfZip(keys: seq<string>, values: seq<string>): (d: map<string, string>)
    ensures forall k :: k in d ==> k in keys
  {
    var n := if |keys| < |values| then |keys| else |values|;
    map i | 0 <= i < n && (forall j :: i < j < n ==> keys[j] != keys[i]) :: keys[i] := values[i]
  }

  /** With distinct keys, every key maps to the value at its own position. */
  lemma DictOfZipDistinct(keys: seq<string>, values: seq<string>, i: int)
    requires |keys| == |values| && 0 <= i < |keys|
    requires forall a, b :: 0 <= a < b < |keys| ==> keys[a] != keys[b]
    ensures keys[i] in DictOfZip(keys, values) && DictOfZip(keys, values)[keys[i]] == values[i]
  {
  }

  /** `DataFrame.rename(columns=d)` on the header: a name that is a key of
      `d` is replaced, any other name is kept. */
  function Relabel(columns: seq<string>, d: map<string, string>): (r: seq<string>)
    ensures |r| == |columns|
    ensures forall i :: 0 <= i < |columns| && columns[i] in d ==> r[i] == d[columns[i]]
    ensures forall i :: 0 <= i < |columns| && columns[i] !in d ==> r[i] == columns[i]
  {
    seq(|columns|, i requires 0 <= i < |columns| => if columns[i] in d then d[columns[i]] else columns[i])
  }

  /** Several renames, one after another. */
  function RelabelAll(columns: seq<string>, ds: seq<map<string, string>>): (r: seq<string>)
    ensures |r| == |columns|
    decreases |ds|
  {
    if ds == [] then columns else RelabelAll(Relabel(columns, ds[0]), ds[1..])
  }

  const BibliotecasRenames: map<string, string> := DictOfZip(BibliotecasColumns, Columns)
  const CinesRenames: map<string, string> := DictOfZip(CinesColumns, Columns)
  const MuseosRenames: map<string, string> := DictOfZip(MuseosColumns, Columns)

  /** A source whose header is exactly the expected list ends up with the
      canonical columns in canonical order: the mapping built by name agrees
      with the positional pairing. */
  lemma {:induction false} RenameExpectedHeaders()
    ensures Relabel(BibliotecasColumns, BibliotecasRenames) == Columns
    ensures Relabel(CinesColumns, CinesRenames) == Columns
    ensures Relabel(MuseosColumns, MuseosRenames) == Columns
  {
    RelabelPositional(BibliotecasColumns);
    RelabelPositional(CinesColumns);
    RelabelPositional(MuseosColumns);
  }

  /** Renaming a header with the mapping zipped from it onto `Columns`
      yields `Columns` when its labels are distinct. */
  lemma RelabelPositional(header: seq<string>)
    requires |header| == |Columns|
    requires forall i, j :: 0 <= i < j < |header| ==> header[i] != header[j]
    ensures Relabel(header, DictOfZip(header, Columns)) == Columns
  {
    var d := DictOfZip(header, Columns);
    forall i | 0 <= i < |header| ensures Relabel(header, d)[i] == Columns[i] {
      DictOfZipDistinct(header, Columns, i);
    }
  }

  // ---------------------------------------------------------------------
  // Column selection: `df[columns]`

  /** The first position of `name` in `columns`, or -1. */
  function IndexOf(columns: seq<string>, name: string): (r: int)
    ensures r == -1 <==> name !in columns
    ensures r != -1 ==> 0 <= r < |columns| && columns[r] == name && name !in columns[..r]
  {
    if columns == [] then -1
    else if columns[0] == name then 0
    else
      var r := IndexOf(columns[1..], name);
      assert columns[1..][..(if r == -1 then 0 else r)] == columns[1..(if r == -1 then 1 else r + 1)];
      if r == -1 then -1 else r + 1
  }

  /** The labels of `wanted` that `columns` lacks. */
  function MissingLabels(columns: seq<string>, wanted: seq<string>): (r: seq<string>)
    ensures forall l :: l in r <==> l in wanted && l !in columns
  {
    if wanted == [] then []
    else
      (if wanted[0] in columns then [] else [wanted[0]]) + MissingLabels(columns, wanted[1..])
  }

  /** Every canonical name is a column. */
  predicate HasAllColumns(columns: seq<string>) {
    forall l :: l in Columns ==> l in columns
  }

  /** The cell under `name` in one row (the first such column). */
  function CellOf(columns: seq<string>, row: seq<Cell>, name: string): Cell
    requires |row| == |columns| && name in columns
  {
    row[IndexOf(columns, name)]
  }

  /** One row restricted to the canonical columns. */
  function SelectRow(columns: seq<string>, row: seq<Cell>): SourceRow
    requires |row| == |columns| && HasAllColumns(columns)
  {
    SourceRow(
      CellOf(columns, row, Columns[0]), CellOf(columns, row, Columns[1]),
      CellOf(columns, row, Columns[2]), CellOf(columns, row, Columns[3]),
      CellOf(columns, row, Columns[4]), CellOf(columns, row, Columns[5]),
      CellOf(columns, row, Columns[6]), CellOf(columns, row, Columns[7]),
      CellOf(columns, row, Columns[8]), CellOf(columns, row, Columns[9]),
      CellOf(columns, row, Columns[10]), CellOf(columns, row, Columns[11]),
      CellOf(columns, row, Columns[12]))
  }

  /** The row as it reads when its cells already stand in canonical order. */
  function PositionalRow(row: seq<Cell>): SourceRow
    requires |row| == |Columns|
  {
    SourceRow(row[0], row[1], row[2], row[3], row[4], row[5], row[6], row[7],
              row[8], row[9], row[10], row[11], row[12])
  }

  /** A rectangular table: every row has one cell per column. */
  predicate Rectangular(columns: seq<string>, rows: seq<seq<Cell>>) {
    forall row :: row in rows ==> |row| == |columns|
  }

  /** Every row restricted to the canonical columns, in order. */
  function SelectRows(columns: seq<string>, rows: seq<seq<Cell>>): (r: seq<SourceRow>)
    requires Rectangular(columns, rows) && HasAllColumns(columns)
    ensures |r| == |rows|
  {
    seq(|rows|, i requires 0 <= i < |rows| => SelectRow(columns, rows[i]))
  }

  /** `df[columns]`: fails, naming the absent labels, when a canonical name
      is not a column; otherwise keeps every row, in order. */
  function SelectColumns(columns: seq<string>, rows: seq<seq<Cell>>): (r: Result<seq<SourceRow>, seq<string>>)
    requires Rectangular(columns, rows)
    ensures r.Err? <==> !HasAllColumns(columns)
    ensures r.Err? ==> r.error == MissingLabels(columns, Columns) && r.error != []
    ensures r.Ok? ==> r.value == SelectRows(columns, rows)
  {
    if HasAllColumns(columns) then
      Ok(SelectRows(columns, rows))
    else
      var l :| l in Columns && l !in columns;
      assert l in MissingLabels(columns, Columns);
      Err(MissingLabels(columns, Columns))
  }

  /** Every row read position by position. */
  function PositionalRows(rows: seq<seq<Cell>>): (r: seq<SourceRow>)
    requires Rectangular(Columns, rows)
    ensures |r| == |rows|
  {
    seq(|rows|, i requires 0 <= i < |rows| => PositionalRow(rows[i]))
  }

  /** On the canonical header, selection succeeds and reads every cell
      where it stands. */
  lemma SelectCanonical(rows: seq<seq<Cell>>)
    requires Rectangular(Columns, rows)
    ensures SelectColumns(Columns, rows) == Ok(PositionalRows(rows))
  {
    SelectRowsCanonical(rows);
  }

  lemma {:induction false} SelectRowsCanonical(rows: seq<seq<Cell>>)
    requires Rectangular(Columns, rows)
    ensures HasAllColumns(Columns) && SelectRows(Columns, rows) == PositionalRows(rows)
  {
    assert HasAllColumns(Columns);
    forall i | 0 <= i < |rows| ensures SelectRows(Columns, rows)[i] == PositionalRows(rows)[i] {
      SelectRowCanonical(rows[i]);
    }
  }

  /** On the canonical header, `SelectRow` reads the cells where they stand. */
  lemma SelectRowCanonical(row: seq<Cell>)
    requires |row| == |Columns|
    ensures HasAllColumns(Columns) && SelectRow(Columns, row) == PositionalRow(row)
  {
    CellOfCanonical(row, 0); CellOfCanonical(row, 1); CellOfCanonical(row, 2);
    CellOfCanonical(row, 3); CellOfCanonical(row, 4); CellOfCanonical(row, 5);
    CellOfCanonical(row, 6); CellOfCanonical(row, 7); CellOfCanonical(row, 8);
    CellOfCanonical(row, 9); CellOfCanonical(row, 10); CellOfCanonical(row, 11);
    CellOfCanonical(row, 12);
  }

  /** Under the canonical header, the cell named `Columns[k]` is cell `k`. */
  lemma CellOfCanonical(row: seq<Cell>, k: int)
    requires |row| == |Columns| && 0 <= k < |Columns|
    ensures Columns[k] in Columns && CellOf(Columns, row, Columns[k]) == row[k]
  {
    DistinctIndex(Columns, k);
  }

  /** In a list of distinct labels, each is found at its own position. */
  lemma DistinctIndex(s: seq<string>, k: int)
    requires 0 <= k < |s|
    requires forall i, j :: 0 <= i < j < |s| ==> s[i] != s[j]
    ensures IndexOf(s, s[k]) == k
  {
  }

  // ---------------------------------------------------------------------
  // The master dataset as a function of the renamed sources

  /** Which source failed the selection, and which labels it lacks. */
  datatype SchemaError = MissingColumns(table: string, labels: seq<string>)

  /** A source frame's header and rows as values. */
  datatype Table = Table(columns: seq<string>, rows: seq<seq<Cell>>)

  /** Every cleaning step, row by row. */
  function Pipeline(rows: seq<SourceRow>): (r: seq<Venue>)
    ensures |r| == |rows|
  {
    MapSeq(CleanRow, rows)
  }

  /** `f` applied to every element, in order. */
  function MapSeq<A, B>(f: A -> B, s: seq<A>): (r: seq<B>)
    ensures |r| == |s|
  {
    seq(|s|, i requires 0 <= i < |s| => f(s[i]))
  }

  /** The master dataset of three renamed sources: the first source, in the
      order bibliotecas, cines, museos, that lacks a canonical column fails
      the whole build; otherwise their selected rows, concatenated in that
      order and cleaned. */
  function MasterOf(bibliotecas: Table, cines: Table, museos: Table): (r: Result<seq<Venue>, SchemaError>)
    requires Rectangular(bibliotecas.columns, bibliotecas.rows)
    requires Rectangular(cines.columns, cines.rows)
    requires Rectangular(museos.columns, museos.rows)
    ensures r.Err? <==> !HasAllColumns(bibliotecas.columns) || !HasAllColumns(cines.columns)
                        || !HasAllColumns(museos.columns)
    ensures r.Err? ==> r.error.labels != [] && r.error.table in ["bibliotecas", "cines", "museos"]
    ensures r.Ok? ==> |r.value| == |bibliotecas.rows| + |cines.rows| + |museos.rows|
  {
    match SelectColumns(bibliotecas.columns, bibliotecas.rows)
    case Err(labels) => Err(MissingColumns("bibliotecas", labels))
    case Ok(b) =>
      match SelectColumns(cines.columns, cines.rows)
      case Err(labels) => Err(MissingColumns("cines", labels))
      case Ok(c) =>
        match SelectColumns(museos.columns, museos.rows)
        case Err(labels) => Err(MissingColumns("museos", labels))
        case Ok(m) => Ok(Pipeline(b + c + m))
  }

  /** Cleaning is row by row, so it distributes over concatenation. */
  lemma PipelineOfConcat(a: seq<SourceRow>, b: seq<SourceRow>)
    ensures Pipeline(a + b) == Pipeline(a) + Pipeline(b)
  {
    MapSeqOfConcat(CleanRow, a, b);
  }

  /** A map over a concatenation is the concatenation of the maps. */
  lemma {:induction false} MapSeqOfConcat<A, B>(f: A -> B, a: seq<A>, b: seq<A>)
    ensures MapSeq(f, a + b) == MapSeq(f, a) + MapSeq(f, b)
  {
    var whole, parts := MapSeq(f, a + b), MapSeq(f, a) + MapSeq(f, b);
    forall i | 0 <= i < |a| + |b| ensures whole[i] == parts[i] {
      if i < |a| {
        assert (a + b)[i] == a[i];
      } else {
        assert (a + b)[i] == b[i - |a|];
      }
    }
  }

  /** The build fails exactly when some source lacks a canonical column;
      then it names the first such source, in the order bibliotecas, cines,
      museos, with the labels that source lacks. Otherwise it keeps every
      row: the bibliotecas first, then the cines, then the museos. */
  lemma {:induction false} MasterShape(bibliotecas: Table, cines: Table, museos: Table)
    requires Rectangular(bibliotecas.columns, bibliotecas.rows)
    requires Rectangular(cines.columns, cines.rows)
    requires Rectangular(museos.columns, museos.rows)
    ensures var r := MasterOf(bibliotecas, cines, museos);
      && (r.Err? <==> !HasAllColumns(bibliotecas.columns) || !HasAllColumns(cines.columns)
                      || !HasAllColumns(museos.columns))
      && (!HasAllColumns(bibliotecas.columns) ==>
            r == Err(MissingColumns("bibliotecas", MissingLabels(bibliotecas.columns, Columns))))
      && (HasAllColumns(bibliotecas.columns) && !HasAllColumns(cines.columns) ==>
            r == Err(MissingColumns("cines", MissingLabels(cines.columns, Columns))))
      && (HasAllColumns(bibliotecas.columns) && HasAllColumns(cines.columns)
          && !HasAllColumns(museos.columns) ==>
            r == Err(MissingColumns("museos", MissingLabels(museos.columns, Columns))))
      && (r.Ok? ==>
           |r.value| == |bibliotecas.rows| + |cines.rows| + |museos.rows|
           && r.value == Pipeline(SelectRows(bibliotecas.columns, bibliotecas.rows))
                         + Pipeline(SelectRows(cines.columns, cines.rows))
                         + Pipeline(SelectRows(museos.columns, museos.rows)))
  {
    var sb := SelectColumns(bibliotecas.columns, bibliotecas.rows);
    var sc := SelectColumns(cines.columns, cines.rows);
    var sm := SelectColumns(museos.columns, museos.rows);
    if sb.Ok? && sc.Ok? && sm.Ok? {
      PipelineOfConcat(sb.value + sc.value, sm.value);
      PipelineOfConcat(sb.value, sc.value);
    }
  }

  /** End to end for sources whose headers are exactly the expected ones:
      the build succeeds, and its rows are the bibliotecas, then the cines,
      then the museos, each read position by position and cleaned. */
  lemma {:induction false} MasterOfExpectedHeaders(
    bibliotecas: seq<seq<Cell>>, cines: seq<seq<Cell>>, museos: seq<seq<Cell>>)
    requires Rectangular(BibliotecasColumns, bibliotecas)
    requires Rectangular(CinesColumns, cines)
    requires Rectangular(MuseosColumns, museos)
    ensures Rectangular(Columns, bibliotecas) && Rectangular(Columns, cines) && Rectangular(Columns, museos)
    ensures MasterOf(Table(Relabel(BibliotecasColumns, BibliotecasRenames), bibliotecas),
                     Table(Relabel(CinesColumns, CinesRenames), cines),
                     Table(Relabel(MuseosColumns, MuseosRenames), museos))
      == Ok(Pipeline(PositionalRows(bibliotecas) + PositionalRows(cines) + PositionalRows(museos)))
  {
    RenameExpectedHeaders();
    SelectCanonical(bibliotecas);
    SelectCanonical(cines);
    SelectCanonical(museos);
  }

  // ---------------------------------------------------------------------
  // The frames and the imperative build

  /** A pandas data frame: a header and rows of cells. The build renames
      the caller's frames in place. */
  class Frame {
    var columns: seq<string>
    var rows: seq<seq<Cell>>

    ghost predicate Valid()
      reads this
    {
      Rectangular(columns, rows)
    }

    function View(): Table
      reads this
    {
      Table(columns, rows)
    }

    constructor (columns: seq<string>, rows: seq<seq<Cell>>)
      requires Rectangular(columns, rows)
      ensures Valid() && this.columns == columns && this.rows == rows
    {
      this.columns := columns;
      this.rows := rows;
    }

    /** `rename(columns=d, inplace=True)`. */
    method Rename(d: map<string, string>)
      requires Valid()
      modifies this
      ensures Valid()
      ensures columns == Relabel(old(columns), d) && rows == old(rows)
    {
      columns := Relabel(columns, d);
    }
  }

  /** The renames the build applies to frame `f`, in order, when the three
      arguments are `b`, `c` and `m` (the same frame may be passed twice). */
  function RenamesFor(f: Frame, b: Frame, c: Frame, m: Frame): seq<map<string, string>> {
    RenamesWith(f, b, c, m, BibliotecasRenames, CinesRenames, MuseosRenames)
  }

  /** The mappings among `db`, `dc`, `dm` that reach frame `f` when `b` is
      renamed with `db`, then `c` with `dc`, then `m` with `dm`. */
  function RenamesWith(f: Frame, b: Frame, c: Frame, m: Frame,
                       db: map<string, string>, dc: map<string, string>, dm: map<string, string>)
    : seq<map<string, string>>
  {
    (if f == b then [db] else []) + (if f == c then [dc] else []) + (if f == m then [dm] else [])
  }

  /** A header after an optional rename. */
  function RenameIf(columns: seq<string>, applies: bool, d: map<string, string>): seq<string> {
    if applies then Relabel(columns, d) else columns
  }

  /** Applying the selected renames one after another. */
  lemma RelabelAllSelected(columns: seq<string>, x: bool, y: bool, z: bool,
                           dx: map<string, string>, dy: map<string, string>, dz: map<string, string>)
    ensures RelabelAll(columns, (if x then [dx] else []) + (if y then [dy] else []) + (if z then [dz] else []))
      == RenameIf(RenameIf(RenameIf(columns, x, dx), y, dy), z, dz)
  {
    var last := if z then [dz] else [];
    var rest := (if y then [dy] else []) + last;
    assert (if x then [dx] else []) + (if y then [dy] else []) + last == (if x then [dx] else []) + rest;
    RelabelAllFirst(columns, x, dx, rest);
    RelabelAllFirst(RenameIf(columns, x, dx), y, dy, last);
    var before := RenameIf(RenameIf(columns, x, dx), y, dy);
    RelabelAllFirst(before, z, dz, []);
  }

  /** An optional first rename is applied before the rest. */
  lemma RelabelAllFirst(columns: seq<string>, x: bool, d: map<string, string>, rest: seq<map<string, string>>)
    ensures RelabelAll(columns, (if x then [d] else []) + rest) == RelabelAll(RenameIf(columns, x, d), rest)
  {
    if x {
      assert ([d] + rest)[0] == d && ([d] + rest)[1..] == rest;
    } else {
      assert [] + rest == rest;
    }
  }

  /** Renames `b` with `db`, then `c` with `dc`, then `m` with `dm`, in place. */
  method RenameInOrder(b: Frame, c: Frame, m: Frame,
                       db: map<string, string>, dc: map<string, string>, dm: map<string, string>)
    requires b.Valid() && c.Valid() && m.Valid()
    modifies b, c, m
    ensures b.Valid() && c.Valid() && m.Valid()
    ensures b.columns == RelabelAll(old(b.columns), RenamesWith(b, b, c, m, db, dc, dm))
    ensures c.columns == RelabelAll(old(c.columns), RenamesWith(c, b, c, m, db, dc, dm))
    ensures m.columns == RelabelAll(old(m.columns), RenamesWith(m, b, c, m, db, dc, dm))
    ensures b.rows == old(b.rows) && c.rows == old(c.rows) && m.rows == old(m.rows)
  {
    ghost var ob, oc, om := b.columns, c.columns, m.columns;
    b.Rename(db);
    c.Rename(dc);
    m.Rename(dm);
    RelabelAllSelected(ob, b == b, b == c, b == m, db, dc, dm);
    RelabelAllSelected(oc, c == b, c == c, c == m, db, dc, dm);
    RelabelAllSelected(om, m == b, m == c, m == m, db, dc, dm);
  }

  /** `DataFrame.apply(f, axis='columns')`: `f` applied to every row, in
      order, into a new table. */
  method ApplyToRows<A, B>(rows: seq<A>, f: A -> B) returns (out: seq<B>)
    ensures |out| == |rows|
    ensures forall k :: 0 <= k < |rows| ==> out[k] == f(rows[k])
  {
    out := [];
    for i := 0 to |rows|
      invariant |out| == i
      invariant forall k :: 0 <= k < i ==> out[k] == f(rows[k])
    {
      out := out + [f(rows[i])];
    }
  }

  /** Step 4: the masked assignment `loc[(provincia == 'Salta') &
      (id_provincia == 58), 'id_provincia'] = 66`. */
  method CorrectSaltaIds(rows: seq<Venue>) returns (out: seq<Venue>)
    ensures |out| == |rows|
    ensures forall k :: 0 <= k < |rows| ==>
      out[k] == if IsMisnumberedSalta(rows[k]) then rows[k].(idProvincia := Int(66)) else rows[k]
  {
    out := rows;
    for i := 0 to |rows|
      invariant |out| == |rows|
      invariant forall k :: 0 <= k < i ==> out[k] == CorrectSaltaId(rows[k])
      invariant forall k :: i <= k < |rows| ==> out[k] == rows[k]
    {
      if out[i].provincia == Text("Salta") && out[i].idProvincia == Int(58) {
        out := out[i := out[i].(idProvincia := Int(66))];
      }
    }
  }

  /** Step 6: the `codigo_postal` column rewritten through the ".0" map. */
  method CleanPostalCodes(rows: seq<Venue>) returns (out: seq<Venue>)
    ensures |out| == |rows|
    ensures forall k :: 0 <= k < |rows| ==>
      out[k] == rows[k].(codigoPostal := CleanPostalCode(rows[k].codigoPostal))
  {
    out := rows;
    for i := 0 to |rows|
      invariant |out| == |rows|
      invariant forall k :: 0 <= k < i ==> out[k] == CleanPostalCodeOf(rows[k])
      invariant forall k :: i <= k < |rows| ==> out[k] == rows[k]
    {
      out := out[i := out[i].(codigoPostal := CleanPostalCode(out[i].codigoPostal))];
    }
  }

  /** `make_master_dataset`. The three frames are renamed in place before
      anything can fail, so a failed build still leaves them renamed. The
      result is `MasterOf` of the renamed frames. */
  method MakeMasterDataset(bibliotecas: Frame, cines: Frame, museos: Frame)
    returns (r: Result<seq<Venue>, SchemaError>)
    requires bibliotecas.Valid() && cines.Valid() && museos.Valid()
    modifies bibliotecas, cines, museos
    ensures bibliotecas.Valid() && cines.Valid() && museos.Valid()
    ensures bibliotecas.columns
      == RelabelAll(old(bibliotecas.columns), RenamesFor(bibliotecas, bibliotecas, cines, museos))
    ensures cines.columns == RelabelAll(old(cines.columns), RenamesFor(cines, bibliotecas, cines, museos))
    ensures museos.columns == RelabelAll(old(museos.columns), RenamesFor(museos, bibliotecas, cines, museos))
    ensures bibliotecas.rows == old(bibliotecas.rows) && cines.rows == old(cines.rows)
    ensures museos.rows == old(museos.rows)
    ensures r == MasterOf(bibliotecas.View(), cines.View(), museos.View())
  {
    // 1) rename so that all frames match, then select and concatenate
    RenameInOrder(bibliotecas, cines, museos, BibliotecasRenames, CinesRenames, MuseosRenames);
    var b := SelectColumns(bibliotecas.columns, bibliotecas.rows);
    if b.Err? {
      return Err(MissingColumns("bibliotecas", b.error));
    }
    var c := SelectColumns(cines.columns, cines.rows);
    if c.Err? {
      return Err(MissingColumns("cines", c.error));
    }
    var m := SelectColumns(museos.columns, museos.rows);
    if m.Err? {
      return Err(MissingColumns("museos", m.error));
    }
    var venues := CleanMaster(b.value + c.value + m.value);
    r := Ok(venues);
  }

  /** Steps 2 to 6 of `make_master_dataset` on the concatenated rows. */
  method CleanMaster(master: seq<SourceRow>) returns (venues: seq<Venue>)
    ensures venues == Pipeline(master)
  {
    // 2) phone number, dropping Cod_tel and Teléfono
    var phoned := ApplyToRows(master, AssemblePhone);
    // 3) province names
    var unified := ApplyToRows(phoned, UnifyProvinceNames);
    // 4) Salta's province id
    var corrected := CorrectSaltaIds(unified);
    // 5) textual nulls
    var nulled := ApplyToRows(corrected, ConvertTextNullsToNan);
    // 6) postal codes
    venues := CleanPostalCodes(nulled);
    forall k | 0 <= k < |master| ensures venues[k] == Pipeline(master)[k] {
      PipelineAt(master, k);
      assert corrected[k] == CorrectSaltaId(unified[k]);
    }
  }

  /** Row `k` of the pipeline is source row `k`, cleaned. */
  lemma PipelineAt(rows: seq<SourceRow>, k: int)
    requires 0 <= k < |rows|
    ensures Pipeline(rows)[k] == CleanRow(rows[k])
  {
  }
}
