/** The string helpers of the extract stage (arculturaletl/extract.py): the
    rewrite of a Google Sheets edit link into its CSV export link, and the
    dated name under which a downloaded file is stored. */
module Extract {
  import opened Wrappers
  import opened Strings

  /** What `make_url` puts in place of everything from `edit` on. */
  const CsvExport: string := "gviz/tq?tqx=out:csv"

  /** `make_url`: keep `url` up to its first `edit` and append the CSV
      export path. A URL without `edit` is rejected (the source logs an error
      and exits the process). */
  function MakeUrl(url: string): (r: Option<string>)
    ensures r.None? <==> !Contains(url, "edit")
    ensures r.Some? ==>
      var keep := |r.value| - |CsvExport|;
      0 <= keep <= |url| && OccursAt(url, "edit", keep)
      && r.value == url[..keep] + CsvExport
      && !Contains(url[..keep], "edit")
  {
    var i := Find(url, "edit");
    if i != -1 then
      NoEarlierOccurrence(url, "edit", i);
      Some(url[..i] + CsvExport)
    else None
  }

  /** The rewritten link holds no `edit` at all, so it cannot be rewritten a
      second time. */
  lemma {:induction false} MakeUrlResultHasNoEdit(url: string)
    requires MakeUrl(url).Some?
    ensures !Contains(MakeUrl(url).value, "edit")
    ensures MakeUrl(MakeUrl(url).value).None?
  {
    var keep := Find(url, "edit");
    FirstCharAbsent(CsvExport, "edit");
    NoOccurrenceInConcat(url[..keep], CsvExport, "edit");
  }

  /** A plain CSV export link holds no "edit" and is refused. */
  lemma MakeUrlRejectsExample()
    ensures MakeUrl("https://datos.gob.ar/cultura.csv") == None
  {
    FirstCharAbsent("https://datos.gob.ar/cultura.csv", "edit");
  }

  /** Two occurrences of `edit` are at least four characters apart. */
  lemma EditDoesNotOverlap(s: string, i: int, j: int)
    requires OccursAt(s, "edit", i) && OccursAt(s, "edit", j) && i < j
    ensures i + 4 <= j
  {
    if j < i + 4 {
      CharOfOccurrence(s, "edit", j, 0);
      CharOfOccurrence(s, "edit", i, j - i);
      assert false;
    }
  }

  /** The shape the configured links have: a sheet address, `edit`, then
      anything. The address is kept and everything from `edit` on is replaced,
      because `edit` cannot overlap itself and so cannot start inside the
      address. */
  lemma {:induction false} MakeUrlOfEditLink(address: string, rest: string)
    requires !Contains(address, "edit")
    ensures MakeUrl(address + "edit" + rest) == Some(address + CsvExport)
  {
    var url := address + "edit" + rest;
    var n := |address|;
    assert url[n..n + 4] == "edit";
    assert OccursAt(url, "edit", n);
    var i := Find(url, "edit");
    if i + 4 <= n {
      assert url[i..i + 4] == address[i..i + 4];
      assert OccursAt(address, "edit", i);
    }
    if i < n {
      EditDoesNotOverlap(url, i, n);
    }
    assert url[..n] == address;
  }

  /** A calendar date as `date.today()` yields it. */
  datatype Date = Date(day: int, month: int, year: int)

  predicate ValidDate(d: Date) {
    1 <= d.day <= 31 && 1 <= d.month <= 12 && 1 <= d.year <= 9999
  }

  /** `strftime('%d-%m-%Y')`. */
  function DateStamp(d: Date): (r: string)
    requires ValidDate(d)
    ensures |r| == 10 && r[2] == '-' && r[5] == '-'
    ensures AllDigits(r[..2]) && DigitsValue(r[..2]) == d.day
    ensures AllDigits(r[3..5]) && DigitsValue(r[3..5]) == d.month
    ensures AllDigits(r[6..]) && DigitsValue(r[6..]) == d.year
  {
    NatToStringLength(d.day, 2);
    NatToStringLength(d.month, 2);
    NatToStringLength(d.year, 4);
    var dd, mm, yyyy := ZeroPad(d.day, 2), ZeroPad(d.month, 2), ZeroPad(d.year, 4);
    var r := dd + "-" + mm + "-" + yyyy;
    assert r[..2] == dd && r[3..5] == mm && r[6..] == yyyy;
    r
  }

  /** `make_filename`: `category-dd-mm-yyyy.csv` for the date passed in
      (the source reads today's date itself). The name starts with the
      category and a dash, ends in `.csv`, and the date reads back from it. */
  function MakeFilename(category: string, today: Date): (r: string)
    requires ValidDate(today)
    ensures |r| == |category| + 15
    ensures r[..|category| + 1] == category + "-"
    ensures r[|r| - 4..] == ".csv"
    ensures r[|category| + 1..|r| - 4] == DateStamp(today)
  {
    var r := category + "-" + DateStamp(today) + ".csv";
    assert r[..|category| + 1] == category + "-";
    assert r[|category| + 1..|r| - 4] == DateStamp(today);
    r
  }
}
