/** The row-level logic of the transform stage (arculturaletl/transform.py):
    the category read back from a file name, and the cleaners that the master
    dataset applies to every venue row. */
module Transform {
  import opened Strings
  import Extract

  /** One cell of a data frame. A missing value (NaN) is `Missing`; an
      integer column such as `id_provincia` holds `Int`; every other value,
      floats included, is the text `str()` renders for it ("1425.0"). */
  datatype Cell = Missing | Text(s: string) | Int(i: int)

  /** Python's `str(value)`; `str(NaN)` is "nan". */
  function Str(c: Cell): (r: string)
    ensures c.Text? ==> r == c.s
    ensures c.Missing? ==> r == "nan"
    ensures c.Int? ==> r == IntToString(c.i)
  {
    match c
    case Missing => "nan"
    case Text(s) => s
    case Int(i) => IntToString(i)
  }

  // ---------------------------------------------------------------------
  // get_file_category

  /** `get_file_category`: the part of a file name before its first dash.
      Without a dash `find` gives -1 and the slice `[:-1]` drops the last
      character instead. */
  function GetFileCategory(filename: string): (r: string)
    ensures '-' !in r
    ensures '-' in filename ==> |r| < |filename| && filename[..|r|] == r && filename[|r|] == '-'
    ensures '-' !in filename ==> r == if filename == [] then [] else filename[..|filename| - 1]
  {
    FindChar(filename, '-');
    var firstDash := Find(filename, "-");
    if firstDash != -1 then filename[..firstDash]
    else if filename == [] then []
    else filename[..|filename| - 1]
  }

  /** The category that `make_filename` writes into a file name reads back
      from it, provided it holds no dash itself. */
  lemma CategoryOfFilename(category: string, today: Extract.Date)
    requires Extract.ValidDate(today) && '-' !in category
    ensures GetFileCategory(Extract.MakeFilename(category, today)) == category
  {
    var name := Extract.MakeFilename(category, today);
    assert name[..|category| + 1][|category|] == '-';
  }

  /** A category with a dash is cut at its first dash. */
  lemma CategoryWithDashIsCut(prefix: string, rest: string, today: Extract.Date)
    requires Extract.ValidDate(today) && '-' !in prefix
    ensures GetFileCategory(Extract.MakeFilename(prefix + "-" + rest, today)) == prefix
  {
    var category := prefix + "-" + rest;
    var name := Extract.MakeFilename(category, today);
    assert name[..|category| + 1][..|prefix| + 1] == name[..|prefix| + 1];
    assert name[..|prefix|] == prefix && name[|prefix|] == '-';
  }

  /** A name without a dash loses its last character. */
  lemma CategoryWithoutDash()
    ensures GetFileCategory("museos") == "museo"
  {
    FindChar("museos", '-');
  }

  // ---------------------------------------------------------------------
  // make_phone_number

  /** One part of a phone number as `make_phone_number` cleans it: `str()`,
      `strip()`, then everything before the first ".0", if there is one. */
  function CleanPhonePart(c: Cell): (r: string)
    ensures !Contains(r, ".0")
    ensures |r| <= |Strip(Str(c))| && r == Strip(Str(c))[..|r|]
    ensures !Contains(Strip(Str(c)), ".0") ==> r == Strip(Str(c))
    ensures Contains(Strip(Str(c)), ".0") ==> OccursAt(Strip(Str(c)), ".0", |r|)
  {
    var text := Strip(Str(c));
    var i := Find(text, ".0");
    if i != -1 then
      NoEarlierOccurrence(text, ".0", i);
      text[..i]
    else text
  }

  /** `make_phone_number`: the value written to the new `telefono` column
      from the `Cod_tel` and `Teléfono` cells. A missing number gives a
      missing phone whatever the code holds; otherwise the cleaned number,
      preceded by the cleaned code and a space when the code is present. */
  function MakePhoneNumber(codTel: Cell, tel: Cell): (r: Cell)
    ensures r.Missing? <==> tel.Missing?
    ensures r.Int? == false
    ensures !tel.Missing? && codTel.Missing? ==> r == Text(CleanPhonePart(tel))
    ensures !tel.Missing? && !codTel.Missing? ==>
      r == Text(CleanPhonePart(codTel) + " " + CleanPhonePart(tel))
  {
    if !tel.Missing? then
      var number := CleanPhonePart(tel);
      if !codTel.Missing? then Text(CleanPhonePart(codTel) + " " + number)
      else Text(number)
    else Missing
  }

  /** A phone number never keeps a ".0": neither part holds one, and the
      space between them cannot complete one. */
  lemma {:induction false} PhoneHasNoDecimalArtifact(codTel: Cell, tel: Cell)
    requires MakePhoneNumber(codTel, tel).Text?
    ensures !Contains(MakePhoneNumber(codTel, tel).s, ".0")
  {
    if !codTel.Missing? {
      JoinedHasNoDecimalArtifact(CleanPhonePart(codTel), CleanPhonePart(tel));
    }
  }

  /** Two parts without ".0" joined by a space hold no ".0". */
  lemma {:induction false} JoinedHasNoDecimalArtifact(code: string, number: string)
    requires !Contains(code, ".0") && !Contains(number, ".0")
    ensures !Contains(code + " " + number, ".0")
  {
    FirstCharAbsent(" ", ".0");
    NoOccurrenceInConcat(code, " ", ".0");
    NoOccurrenceInConcat(code + " ", number, ".0");
  }

  /** A digit string followed by ".0", as a float column renders a whole
      number, cleans back to the digits. */
  lemma {:induction false} CleanPhonePartOfFloat(digits: string)
    requires |digits| >= 1 && AllDigits(digits)
    ensures CleanPhonePart(Text(digits + ".0")) == digits
  {
    var text := digits + ".0";
    assert Str(Text(text)) == text;
    StripOfTrimmed(text);
    assert text[|digits|..|digits| + 2] == ".0";
    assert '.' !in text[..|digits|] by {
      assert text[..|digits|] == digits;
    }
    FindFirstAt(text, ".0", |digits|);
    assert text[..|digits|] == digits;
  }

  /** The case the cleaning was written for: code and number that went
      through float columns, such as "11.0" and "4567.0", give "11 4567". */
  lemma {:induction false} PhoneOfFloats(code: string, number: string)
    requires |code| >= 1 && AllDigits(code) && |number| >= 1 && AllDigits(number)
    ensures MakePhoneNumber(Text(code + ".0"), Text(number + ".0")) == Text(code + " " + number)
    ensures MakePhoneNumber(Missing, Text(number + ".0")) == Text(number)
  {
    CleanPhonePartOfFloat(code);
    CleanPhonePartOfFloat(number);
  }

  /** A string with no white space at either end is its own `strip()`. */
  lemma StripOfTrimmed(s: string)
    requires s != [] && !IsSpace(s[0]) && !IsSpace(s[|s| - 1])
    ensures Strip(s) == s
  {
  }

  // ---------------------------------------------------------------------
  // unify_province_names

  /** The province spellings that `unify_province_names` corrects. */
  const ProvinceFixes: map<string, string> := map[
    "Neuquén\U{a0}" := "Neuquén",
    "Santa Fe" := "Santa Fé",
    "Tierra del Fuego" := "Tierra del Fuego, Antártida e Islas del Atlántico Sur"]

  /** `unify_province_names` on the `provincia` cell: the three listed
      spellings are replaced, everything else (a missing value included)
      passes through. */
  function UnifyProvinceName(provincia: Cell): (r: Cell)
    ensures provincia.Text? && provincia.s in ProvinceFixes ==> r == Text(ProvinceFixes[provincia.s])
    ensures !(provincia.Text? && provincia.s in ProvinceFixes) ==> r == provincia
  {
    if provincia == Text("Neuquén\U{a0}") then Text("Neuquén")
    else if provincia == Text("Santa Fe") then Text("Santa Fé")
    else if provincia == Text("Tierra del Fuego") then
      Text("Tierra del Fuego, Antártida e Islas del Atlántico Sur")
    else provincia
  }

  /** No corrected spelling is itself one that gets corrected, so unifying
      twice is unifying once. */
  lemma {:induction false} UnifyProvinceNameIdempotent(provincia: Cell)
    ensures !(UnifyProvinceName(provincia).Text? && UnifyProvinceName(provincia).s in ProvinceFixes)
    ensures UnifyProvinceName(UnifyProvinceName(provincia)) == UnifyProvinceName(provincia)
  {
    var r := UnifyProvinceName(provincia);
    if provincia.Text? && provincia.s in ProvinceFixes {
      assert "Neuquén" != "Neuquén\U{a0}" by { assert |"Neuquén"| != |"Neuquén\U{a0}"|; }
      assert r.s !in ProvinceFixes;
    }
  }

  /** A row is "Salta" after unification exactly when it was before, so the
      Salta correction sees the province names as the sources spell them. */
  lemma UnifyKeepsSalta(provincia: Cell)
    ensures UnifyProvinceName(provincia) == Text("Salta") <==> provincia == Text("Salta")
  {
  }

  // ---------------------------------------------------------------------
  // convert_text_nulls_to_nan

  /** The textual spellings of "no value" in the sources. */
  const TextualNulls: seq<string> := ["sin dirección", "s/d"]

  /** `str(value).strip().lower()` is one of the textual nulls. */
  predicate IsTextualNull(c: Cell) {
    Lower(Strip(Str(c))) in TextualNulls
  }

  /** `convert_text_nulls_to_nan` on one cell: a textual null becomes
      missing, any other value stays as it is. */
  function NullIfTextual(c: Cell): (r: Cell)
    ensures r.Missing? <==> c.Missing? || IsTextualNull(c)
    ensures !r.Missing? ==> r == c
  {
    if IsTextualNull(c) then Missing else c
  }

  /** A missing value is not a textual null: `str(NaN)` is "nan". */
  lemma MissingIsNotTextualNull()
    ensures !IsTextualNull(Missing)
  {
    assert Str(Missing) == "nan";
  }

  /** A cleaned cell is not cleaned again. */
  lemma {:induction false} NullIfTextualIdempotent(c: Cell)
    ensures NullIfTextual(NullIfTextual(c)) == NullIfTextual(c)
  {
    if !NullIfTextual(c).Missing? {
      assert NullIfTextual(c) == c;
    }
  }

  /** Case and surrounding white space do not matter: any run of white
      space on either side, the no-break space included, leaves the verdict
      as it is for the bare text. */
  lemma {:induction false} TextualNullIgnoresPadding(before: string, s: string, after: string)
    requires AllSpace(before) && AllSpace(after)
    requires s != [] && !IsSpace(s[0]) && !IsSpace(s[|s| - 1])
    ensures NullIfTextual(Text(before + s + after)).Missing? <==> NullIfTextual(Text(s)).Missing?
  {
    StripOfPadded(before, s, after);
    StripOfTrimmed(s);
  }

  lemma SdIsNull()
    ensures NullIfTextual(Text("S/D")) == Missing
  {
    assert Str(Text("S/D")) == "S/D";
    StripOfTrimmed("S/D");
    assert Lower("S/D") == "s/d";
  }

  lemma SinDireccionIsNull()
    ensures NullIfTextual(Text("Sin Dirección")) == Missing
  {
    assert Str(Text("Sin Dirección")) == "Sin Dirección";
    StripOfTrimmed("Sin Dirección");
    assert Lower("Sin Dirección") == "sin dirección";
  }

  /** A real address stays. */
  lemma AddressIsKept()
    ensures NullIfTextual(Text("Av. Siempreviva 742")) == Text("Av. Siempreviva 742")
  {
    assert Str(Text("Av. Siempreviva 742")) == "Av. Siempreviva 742";
    StripOfTrimmed("Av. Siempreviva 742");
    assert Lower("Av. Siempreviva 742")[0] == 'a';
  }

  // ---------------------------------------------------------------------
  // The postal-code step of make_master_dataset

  /** The `codigo_postal` map of `make_master_dataset`: when `str(value)`
      holds ".0" anywhere, its last two characters are dropped; otherwise
      the value is kept as it is. */
  function CleanPostalCode(c: Cell): (r: Cell)
    ensures !Contains(Str(c), ".0") ==> r == c
    ensures Contains(Str(c), ".0") ==>
      r.Text? && |r.s| + 2 == |Str(c)| && r.s == Str(c)[..|r.s|]
  {
    var text := Str(c);
    if Find(text, ".0") != -1 then Text(text[..|text| - 2]) else c
  }

  /** What the step is for: a code that went through a float column comes
      back as its digits. */
  lemma {:induction false} PostalCodeOfFloat(digits: string)
    requires AllDigits(digits)
    ensures CleanPostalCode(Text(digits + ".0")) == Text(digits)
  {
    var text := digits + ".0";
    assert text[|digits|..|digits| + 2] == ".0";
    assert OccursAt(text, ".0", |digits|);
    assert text[..|text| - 2] == digits;
  }

  /** A code without ".0" is untouched, and neither is a missing one. */
  lemma PostalCodeExamples()
    ensures CleanPostalCode(Text("1425.0")) == Text("1425")
    ensures CleanPostalCode(Text("1425")) == Text("1425")
    ensures CleanPostalCode(Missing) == Missing
  {
    assert "1425" + ".0" == "1425.0";
    PostalCodeOfFloat("1425");
    assert Str(Text("1425")) == "1425";
    FirstCharAbsent("1425", ".0");
    assert Str(Missing) == "nan";
    FirstCharAbsent("nan", ".0");
  }

  /** The step cuts whenever ".0" occurs, not only at the end, and is
      therefore not idempotent. */
  lemma PostalCodeCutsInside()
    ensures CleanPostalCode(Text("12.034")) == Text("12.0")
    ensures CleanPostalCode(Text("1.0.0")) == Text("1.0")
    ensures CleanPostalCode(CleanPostalCode(Text("1.0.0"))) == Text("1")
  {
    assert "12.034"[2..4] == ".0";
    assert OccursAt("12.034", ".0", 2);
    assert "1.0.0"[1..3] == ".0";
    assert OccursAt("1.0.0", ".0", 1);
    assert "1.0"[1..3] == ".0";
    assert OccursAt("1.0", ".0", 1);
  }

  // ---------------------------------------------------------------------
  // Rows

  /** A row of one source after its columns were renamed and selected:
      the thirteen canonical columns, `Cod_tel` and `Teléfono` included. */
  datatype SourceRow = SourceRow(
    codLocalidad: Cell, idProvincia: Cell, idDepartamento: Cell, categoria: Cell,
    provincia: Cell, localidad: Cell, nombre: Cell, domicilio: Cell,
    codigoPostal: Cell, codTel: Cell, tel: Cell, mail: Cell, web: Cell)

  /** A row of the master dataset: `Cod_tel` and `Teléfono` are gone and the
      combined `telefono` is the last column. */
  datatype Venue = Venue(
    codLocalidad: Cell, idProvincia: Cell, idDepartamento: Cell, categoria: Cell,
    provincia: Cell, localidad: Cell, nombre: Cell, domicilio: Cell,
    codigoPostal: Cell, mail: Cell, web: Cell, telefono: Cell)

  /** `make_phone_number` applied to a row, followed by dropping the
      `Cod_tel` and `Teléfono` columns. */
  function AssemblePhone(row: SourceRow): (v: Venue)
    ensures v.telefono == MakePhoneNumber(row.codTel, row.tel)
    ensures v.codLocalidad == row.codLocalidad && v.idProvincia == row.idProvincia
      && v.idDepartamento == row.idDepartamento && v.categoria == row.categoria
      && v.provincia == row.provincia && v.localidad == row.localidad && v.nombre == row.nombre
      && v.domicilio == row.domicilio && v.codigoPostal == row.codigoPostal
      && v.mail == row.mail && v.web == row.web
  {
    Venue(row.codLocalidad, row.idProvincia, row.idDepartamento, row.categoria,
          row.provincia, row.localidad, row.nombre, row.domicilio,
          row.codigoPostal, row.mail, row.web, MakePhoneNumber(row.codTel, row.tel))
  }

  /** `unify_province_names` on a row: a listed misspelling of the province
      is replaced by its fix, so none is left; nothing else changes. */
  function UnifyProvinceNames(v: Venue): (r: Venue)
    ensures r.(provincia := v.provincia) == v
    ensures !(r.provincia.Text? && r.provincia.s in ProvinceFixes)
    ensures v.provincia.Text? && v.provincia.s in ProvinceFixes ==>
      r.provincia == Text(ProvinceFixes[v.provincia.s])
    ensures !(v.provincia.Text? && v.provincia.s in ProvinceFixes) ==> r == v
  {
    UnifyProvinceNameIdempotent(v.provincia);
    v.(provincia := UnifyProvinceName(v.provincia))
  }

  /** The row the Salta correction of `make_master_dataset` selects. */
  predicate IsMisnumberedSalta(v: Venue) {
    v.provincia == Text("Salta") && v.idProvincia == Int(58)
  }

  /** The Salta correction on one row: afterwards no row is a misnumbered
      Salta row, and only `id_provincia` may have changed. */
  function CorrectSaltaId(v: Venue): (r: Venue)
    ensures !IsMisnumberedSalta(r)
    ensures r.(idProvincia := v.idProvincia) == v
    ensures IsMisnumberedSalta(v) ==> r.idProvincia == Int(66)
    ensures !IsMisnumberedSalta(v) ==> r == v
  {
    if IsMisnumberedSalta(v) then v.(idProvincia := Int(66)) else v
  }

  /** `convert_text_nulls_to_nan` on a row: `domicilio`, `web` and `mail`
      are cleaned independently; nothing else changes. */
  function ConvertTextNullsToNan(v: Venue): (r: Venue)
    ensures r.(domicilio := v.domicilio, web := v.web, mail := v.mail) == v
    ensures !IsTextualNull(r.domicilio) && !IsTextualNull(r.web) && !IsTextualNull(r.mail)
    ensures r.domicilio.Missing? <==> v.domicilio.Missing? || IsTextualNull(v.domicilio)
    ensures r.web.Missing? <==> v.web.Missing? || IsTextualNull(v.web)
    ensures r.mail.Missing? <==> v.mail.Missing? || IsTextualNull(v.mail)
    ensures !r.domicilio.Missing? ==> r.domicilio == v.domicilio
    ensures !r.web.Missing? ==> r.web == v.web
    ensures !r.mail.Missing? ==> r.mail == v.mail
  {
    MissingIsNotTextualNull();
    v.(domicilio := NullIfTextual(v.domicilio), web := NullIfTextual(v.web),
       mail := NullIfTextual(v.mail))
  }

  /** The postal-code step on one row. */
  function CleanPostalCodeOf(v: Venue): (r: Venue)
    ensures r.(codigoPostal := v.codigoPostal) == v
    ensures !Contains(Str(v.codigoPostal), ".0") ==> r == v
    ensures Contains(Str(v.codigoPostal), ".0") ==>
      r.codigoPostal.Text? && |r.codigoPostal.s| + 2 == |Str(v.codigoPostal)|
      && r.codigoPostal.s == Str(v.codigoPostal)[..|r.codigoPostal.s|]
  {
    v.(codigoPostal := CleanPostalCode(v.codigoPostal))
  }

  /** Everything `make_master_dataset` does to one selected row, in its
      order: phone, province names, Salta id, textual nulls, postal code. */
  function CleanRow(row: SourceRow): (r: Venue)
    ensures r.telefono == MakePhoneNumber(row.codTel, row.tel)
    ensures !(r.provincia.Text? && r.provincia.s in ProvinceFixes)
    ensures !IsMisnumberedSalta(r)
    ensures !IsTextualNull(r.domicilio) && !IsTextualNull(r.web) && !IsTextualNull(r.mail)
  {
    CleanPostalCodeOf(ConvertTextNullsToNan(CorrectSaltaId(UnifyProvinceNames(AssemblePhone(row)))))
  }

  /** What a master row holds, field by field, in terms of the source row:
      the Salta correction applies exactly to source rows spelled "Salta"
      with id 58, the textual-null test to the three contact fields, and the
      identifying columns are copied. */
  lemma {:induction false} CleanRowFields(row: SourceRow)
    ensures var v := CleanRow(row);
      && v.codLocalidad == row.codLocalidad && v.idDepartamento == row.idDepartamento
      && v.categoria == row.categoria && v.localidad == row.localidad && v.nombre == row.nombre
      && v.provincia == UnifyProvinceName(row.provincia)
      && v.idProvincia == (if row.provincia == Text("Salta") && row.idProvincia == Int(58)
                           then Int(66) else row.idProvincia)
      && v.domicilio == NullIfTextual(row.domicilio)
      && v.web == NullIfTextual(row.web)
      && v.mail == NullIfTextual(row.mail)
      && v.codigoPostal == CleanPostalCode(row.codigoPostal)
      && v.telefono == MakePhoneNumber(row.codTel, row.tel)
  {
    UnifyKeepsSalta(row.provincia);
  }
}
