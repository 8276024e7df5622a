/**
 * `components/config_editor.py`: the table editor for the INI and JSON
 * configuration files a profile watches. A file is chosen, then a section;
 * the table shows that section's fields, and the user may edit the values,
 * save them back (keeping a one-time backup of the original) or reset the
 * table to the values it was filled with.
 */
module ConfigEditor {

  import opened Wrappers
  import Text
  import Ini
  import opened Json

  /** A watched file as the editor reads it: an INI configuration, a JSON document, or text `json.load` rejects. */
  datatype Content = IniFile(config: Ini.Config) | JsonFile(doc: Json) | BadJson

  /** A table row: a field and the text of its value. */
  datatype Row = Row(key: string, value: string)

  /** The first item of each combo box, which selects nothing. */
  const NoFile := "Files"
  const NoSection := "Section"

  // ---- the section list (lines 218-237) ----

  /** The sections offered for a file; a JSON file offers the parents of its flattened keys. */
  function SectionChoices(c: Content): Result<set<string>>
  {
    match c
    case IniFile(cfg) => Ok(cfg.Keys)
    case JsonFile(doc) => Ok(Sections(Flattened(doc)))
    case BadJson => Err(ValueError)
  }

  // ---- the rows of a JSON section (lines 264-282) ----

  /** The row an entry makes in section `s`: its key below `s/`, when no further `/` remains. */
  function ChildRow(e: Entry, s: string): Option<Row>
  {
    var pre := s + "/";
    if Text.StartsWith(e.key, pre) && '/' !in e.key[|pre|..] then Some(Row(e.key[|pre|..], Render(e.value))) else None
  }

  /** Line 273 as written: every occurrence of `s/` is removed, not only the leading one. */
  function ChildRowAsWritten(e: Entry, s: string): Option<Row>
  {
    var pre := s + "/";
    var rest := Text.ReplaceAll(e.key, pre, "");
    if Text.StartsWith(e.key, pre) && '/' !in rest then Some(Row(rest, Render(e.value))) else None
  }

  function Rows(f: Dict, s: string): seq<Row>
  {
    if f == [] then []
    else Rows(f[..|f| - 1], s) + (match ChildRow(f[|f| - 1], s) case Some(r) => [r] case None => [])
  }

  function RowsAsWritten(f: Dict, s: string): seq<Row>
  {
    if f == [] then []
    else RowsAsWritten(f[..|f| - 1], s) + (match ChildRowAsWritten(f[|f| - 1], s) case Some(r) => [r] case None => [])
  }

  /**
   * Lines 279-282: a section naming a top-level scalar also shows it as a
   * "Value" row. The test `stripped in data` is list membership on a list
   * and substring search on a string, and the lookup after it is then a
   * `TypeError`, as is `in` on a number, a boolean or `None`.
   */
  function ValueRow(doc: Json, s: string): Result<Option<Row>>
  {
    var stripped := Text.Strip(s + "/", '/');
    match doc
    case Obj(ms) =>
      (match Find(ms, stripped)
       case Some(i) => if IsLeaf(ms[i].value) then Ok(Some(Row("Value", Render(ms[i].value)))) else Ok(None)
       case None => Ok(None))
    case Arr(xs) => if Str(stripped) in xs then Err(TypeError) else Ok(None)
    case Str(t) => if Substring(stripped, t) then Err(TypeError) else Ok(None)
    case _ => Err(TypeError)
  }

  /** Python's `p in t` on strings. */
  predicate Substring(p: string, t: string)
    decreases |t|
  {
    Text.StartsWith(t, p) || (t != [] && Substring(p, t[1..]))
  }

  /** The rows a JSON section shows and the exception the "Value" test raises, if any. */
  function JsonTable(doc: Json, s: string): (seq<Row>, Option<Error>)
  {
    var rows := Rows(Flattened(doc), s);
    match ValueRow(doc, s)
    case Ok(Some(r)) => (rows + [r], None)
    case Ok(None) => (rows, None)
    case Err(e) => (rows, Some(e))
  }

  /** `initial_values` after recording each row in turn. */
  function InitialOf(rows: seq<Row>): map<string, string>
  {
    if rows == [] then map[] else InitialOf(rows[..|rows| - 1])[rows[|rows| - 1].key := rows[|rows| - 1].value]
  }

  /** The rows of an INI section: each option once, with its value. */
  predicate Lists(rows: seq<Row>, sec: Ini.Section)
  {
    (forall i :: 0 <= i < |rows| ==> rows[i].key in sec && sec[rows[i].key] == rows[i].value)
    && (forall k :: k in sec ==> exists i :: 0 <= i < |rows| && rows[i].key == k)
    && (forall i, j :: 0 <= i < j < |rows| ==> rows[i].key != rows[j].key)
  }

  predicate DistinctRows(rows: seq<Row>)
  {
    forall i, j :: 0 <= i < j < |rows| ==> rows[i].key != rows[j].key
  }

  /** A JSON section shows exactly the entries one level below it, each with its value's text. */
  lemma {:induction false} RowsExact(f: Dict, s: string, r: Row)
    ensures r in Rows(f, s) <==> '/' !in r.key && exists e :: e in f && e.key == s + "/" + r.key && r.value == Render(e.value)
  {
    if f != [] {
      var init := f[..|f| - 1];
      var last := f[|f| - 1];
      RowsExact(init, s, r);
      assert f == init + [last];
      var pre := s + "/";
      if ChildRow(last, s) == Some(r) {
        assert last.key == pre + last.key[|pre|..];
      }
      if '/' !in r.key && last.key == s + "/" + r.key && r.value == Render(last.value) {
        assert last.key[..|pre|] == pre && last.key[|pre|..] == r.key;
      }
    }
  }

  /** Entries with distinct keys make rows with distinct keys. */
  lemma {:induction false} RowsDistinct(f: Dict, s: string)
    requires Distinct(f)
    ensures DistinctRows(Rows(f, s))
  {
    if f != [] {
      var init := f[..|f| - 1];
      var last := f[|f| - 1];
      RowsDistinct(init, s);
      var pre := s + "/";
      if ChildRow(last, s).Some? {
        var r := ChildRow(last, s).value;
        assert last.key == pre + r.key;
        var earlier := Rows(init, s);
        forall i | 0 <= i < |earlier| ensures earlier[i].key != r.key {
          RowsExact(init, s, earlier[i]);
        }
      }
    }
  }

  /** Exactly the keys of the rows shown are recorded. */
  lemma {:induction false} InitialKeys(rows: seq<Row>)
    ensures forall k :: k in InitialOf(rows) <==> exists i :: 0 <= i < |rows| && rows[i].key == k
  {
    if rows != [] {
      var init := rows[..|rows| - 1];
      InitialKeys(init);
      forall k | k in InitialOf(rows) ensures exists i :: 0 <= i < |rows| && rows[i].key == k {
        if k != rows[|rows| - 1].key {
          assert k in InitialOf(init);
          var i :| 0 <= i < |init| && init[i].key == k;
          assert rows[i] == init[i];
        }
      }
      forall i | 0 <= i < |rows| ensures rows[i].key in InitialOf(rows) {
        if i < |init| { assert init[i] == rows[i]; }
      }
    }
  }

  /** With distinct keys every row shown is recorded with its value. */
  lemma {:induction false} InitialValues(rows: seq<Row>)
    requires DistinctRows(rows)
    ensures forall i :: 0 <= i < |rows| ==> rows[i].key in InitialOf(rows) && InitialOf(rows)[rows[i].key] == rows[i].value
  {
    if rows != [] {
      var init := rows[..|rows| - 1];
      InitialValues(init);
      forall i | 0 <= i < |init| ensures init[i] == rows[i] && init[i].key != rows[|rows| - 1].key { }
    }
  }

  // ---- F9: the section prefix removed by `replace` ----

  /**
   * As written, a key two levels down whose middle step repeats the
   * section's name shows in the section as if it were a direct child: with
   * `a/x` = 1 and `a/a/x` = 2, section `a` shows the row `x` twice, the
   * second time with the value of `a/a/x`.
   */
  lemma ReplaceShowsGrandchild()
    ensures RowsAsWritten([Entry("a/x", Num(1)), Entry("a/a/x", Num(2))], "a") == [Row("x", "1"), Row("x", "2")]
    ensures Rows([Entry("a/x", Num(1)), Entry("a/a/x", Num(2))], "a") == [Row("x", "1")]
  {
    var f := [Entry("a/x", Num(1)), Entry("a/a/x", Num(2))];
    ExampleChildRows();
    assert f[..1] == [Entry("a/x", Num(1))];
    assert [Entry("a/x", Num(1))][..0] == [];
  }

  /** How each entry of the example above shows in section `a`, as written and corrected. */
  lemma ExampleChildRows()
    ensures ChildRowAsWritten(Entry("a/x", Num(1)), "a") == Some(Row("x", "1"))
    ensures ChildRowAsWritten(Entry("a/a/x", Num(2)), "a") == Some(Row("x", "2"))
    ensures ChildRow(Entry("a/x", Num(1)), "a") == Some(Row("x", "1"))
    ensures ChildRow(Entry("a/a/x", Num(2)), "a") == None
  {
    assert Text.ReplaceAll("a/x", "a/", "") == "x" by {
      assert "a/x"[..2] == "a/";
      assert "a/x"[2..] == "x";
    }
    assert Text.ReplaceAll("a/a/x", "a/", "") == "x" by {
      assert "a/a/x"[..2] == "a/";
      assert "a/a/x"[2..] == "a/x";
      assert "a/x"[..2] == "a/";
      assert "a/x"[2..] == "x";
    }
    assert "a/a/x"[2..] == "a/x";
    assert "a/x"[2..] == "x";
    assert Text.IntToString(1) == "1" && Text.IntToString(2) == "2";
  }

  /** Corrected: every row names the entry it was read from and shows that entry's value. */
  lemma RowNamesItsEntry(f: Dict, s: string, r: Row)
    requires Distinct(f)
    requires r in Rows(f, s)
    ensures Lookup(f, s + "/" + r.key).Some? && Render(Lookup(f, s + "/" + r.key).value) == r.value
  {
    RowsExact(f, s, r);
    var e :| e in f && e.key == s + "/" + r.key && r.value == Render(e.value);
    var v := Lookup(f, e.key).value;
    var i :| 0 <= i < |f| && f[i] == e;
    var j :| 0 <= j < |f| && f[j] == Entry(e.key, v);
    assert i == j;
  }

  /** As written, the second row `x` of the example shows 2 although `a/x` holds 1. */
  lemma AsWrittenRowMisnamesEntry()
    ensures var f := [Entry("a/x", Num(1)), Entry("a/a/x", Num(2))];
            Row("x", "2") in RowsAsWritten(f, "a") && Lookup(f, "a/x") == Some(Num(1))
  {
    ReplaceShowsGrandchild();
    assert [Row("x", "1"), Row("x", "2")][1] == Row("x", "2");
  }

  // ---- saving (lines 300-382) ----

  datatype SaveStatus =
    | Skipped           // a placeholder is selected
    | Saved             // the file was rewritten
    | Refused(field: string)  // the numeric-input message; nothing written
    | Failed(error: Error)    // an exception; nothing written

  datatype Progress = Continue(data: Json) | Stop(status: SaveStatus)

  /** Lines 352-379 for one row: an edited value reaches the document only under a key that flattening produced. */
  function WriteRow(flat: Dict, data: Json, s: string, r: Row): Progress
  {
    var ck := s + "/" + r.key;
    match Lookup(flat, ck)
    case None => Continue(data)
    case Some(orig) =>
      var ks := Text.Split(ck, '/');
      match Navigate(data, ks[..|ks| - 1])
      case Err(e) => Stop(Failed(e))
      case Ok(target) =>
        match Coerce(orig, r.value)
        case None => Stop(Refused(r.key))
        case Some(v) => if target.Obj? then Continue(Update(data, ks, v)) else Stop(Failed(TypeError))
  }

  /** The rows written into the document one after the other; the first refusal or exception ends it. */
  function SaveJson(flat: Dict, data: Json, s: string, rows: seq<Row>): Progress
    decreases |rows|
  {
    if rows == [] then Continue(data)
    else match WriteRow(flat, data, s, rows[0])
      case Continue(d) => SaveJson(flat, d, s, rows[1..])
      case Stop(st) => Stop(st)
  }

  /** Lines 334-341: every row set in the section, which is added if missing. */
  function SaveIni(c: Ini.Config, s: string, rows: seq<Row>): Ini.Config
    decreases |rows|
  {
    if rows == [] then c else SaveIni(Ini.Set(c, s, rows[0].key, rows[0].value), s, rows[1..])
  }

  /** `os.path.join(*parts)`. */
  function JoinParts(parts: seq<string>): string
    requires |parts| >= 1
  {
    if |parts| == 1 then parts[0] else Text.PathJoin(JoinParts(parts[..|parts| - 1]), parts[|parts| - 1])
  }

  /** The parts of the file's path with a drive colon dropped from the first (lines 307-308 and 420-421). */
  function PathParts(file: string): seq<string>
  {
    var parts := Text.Split(file, '/');
    [Text.ReplaceAll(parts[0], ":", "")] + parts[1..]
  }

  function BackupFolder(configDir: string, pid: string): string
  {
    Text.PathJoin(Text.PathJoin(configDir, "config_backup"), pid)
  }

  /** Lines 306-309: where a save keeps the original. */
  function BackupPath(configDir: string, pid: string, file: string): string
  {
    Text.PathJoin(BackupFolder(configDir, pid), JoinParts(PathParts(file)))
  }

  /** Lines 418-422: where a restore looks for it, below a folder named after the host. */
  function RestorePath(configDir: string, pid: string, host: string, file: string): string
  {
    Text.PathJoin(BackupFolder(configDir, pid), JoinParts([host] + PathParts(file)))
  }

  /** Lines 311-314: copy the file to its backup path unless a backup is already there. */
  function WithBackup(files: map<string, Content>, file: string, backup: string): map<string, Content>
    requires file in files
  {
    if backup in files then files else files[backup := files[file]]
  }

  function Written(files: map<string, Content>, file: string, status: SaveStatus, c: Content): (SaveStatus, map<string, Content>)
  {
    (status, files[file := c])
  }

  /** The outcome of `save_changes` and the files afterwards. */
  function SaveSpec(files: map<string, Content>, configDir: string, pid: string, file: string, s: string, rows: seq<Row>): (SaveStatus, map<string, Content>)
    requires file in files
  {
    if file == NoFile || s == NoSection then (Skipped, files)
    else
      var fs := WithBackup(files, file, BackupPath(configDir, pid, file));
      match fs[file]
      case IniFile(c) => Written(fs, file, Saved, IniFile(SaveIni(c, s, rows)))
      case JsonFile(doc) =>
        (match SaveJson(Flattened(doc), doc, s, rows)
         case Continue(d) => Written(fs, file, Saved, JsonFile(d))
         case Stop(st) => (st, fs))
      case BadJson => (Failed(ValueError), fs)
  }

  /**
   * The backup keeps the version the file had before the first save that
   * made it: a save copies the file only when no backup exists, and never
   * writes the backup otherwise.
   */
  lemma BackupKeepsFirstVersion(files: map<string, Content>, configDir: string, pid: string, file: string, s: string, rows: seq<Row>)
    requires file in files && file != NoFile && s != NoSection
    requires BackupPath(configDir, pid, file) != file
    ensures var b := BackupPath(configDir, pid, file);
            var after := SaveSpec(files, configDir, pid, file, s, rows).1;
            b in after && after[b] == (if b in files then files[b] else files[file])
  {
  }

  /**
   * An INI save sets every row's option in the section, the section exists
   * afterwards whenever there was a row, and every other section and every
   * option no row names is untouched.
   */
  lemma SaveIniSets(c: Ini.Config, s: string, rows: seq<Row>)
    ensures SaveIni(c, s, rows).Keys == c.Keys + (if rows == [] then {} else {s})
    ensures forall t :: t in c && t != s ==> SaveIni(c, s, rows)[t] == c[t]
    ensures forall f :: (forall i :: 0 <= i < |rows| ==> Ini.OptionKey(rows[i].key) != Ini.OptionKey(f)) ==>
              Ini.Get(SaveIni(c, s, rows), s, f) == Ini.Get(c, s, f)
    ensures forall i :: 0 <= i < |rows| && (forall j :: i < j < |rows| ==> Ini.OptionKey(rows[j].key) != Ini.OptionKey(rows[i].key)) ==>
              Ini.Get(SaveIni(c, s, rows), s, rows[i].key) == Some(rows[i].value)
  {
    SaveIniSections(c, s, rows);
    forall f | forall i :: 0 <= i < |rows| ==> Ini.OptionKey(rows[i].key) != Ini.OptionKey(f)
      ensures Ini.Get(SaveIni(c, s, rows), s, f) == Ini.Get(c, s, f)
    {
      SaveIniKeeps(c, s, rows, f);
    }
    forall i | 0 <= i < |rows| && (forall j :: i < j < |rows| ==> Ini.OptionKey(rows[j].key) != Ini.OptionKey(rows[i].key))
      ensures Ini.Get(SaveIni(c, s, rows), s, rows[i].key) == Some(rows[i].value)
    {
      SaveIniLast(c, s, rows, i);
    }
  }

  /** An INI save adds the section when there is a row and leaves every other section as it was. */
  lemma {:induction false} SaveIniSections(c: Ini.Config, s: string, rows: seq<Row>)
    ensures SaveIni(c, s, rows).Keys == c.Keys + (if rows == [] then {} else {s})
    ensures forall t :: t in c && t != s ==> SaveIni(c, s, rows)[t] == c[t]
    decreases |rows|
  {
    if rows != [] {
      SaveIniSections(Ini.Set(c, s, rows[0].key, rows[0].value), s, rows[1..]);
    }
  }

  /** An option that no row names keeps its value. */
  lemma {:induction false} SaveIniKeeps(c: Ini.Config, s: string, rows: seq<Row>, f: string)
    requires forall i :: 0 <= i < |rows| ==> Ini.OptionKey(rows[i].key) != Ini.OptionKey(f)
    ensures Ini.Get(SaveIni(c, s, rows), s, f) == Ini.Get(c, s, f)
    decreases |rows|
  {
    if rows != [] {
      assert Ini.OptionKey(rows[0].key) != Ini.OptionKey(f);
      assert forall i :: 0 <= i < |rows[1..]| ==> rows[1..][i] == rows[i + 1];
      SaveIniKeeps(Ini.Set(c, s, rows[0].key, rows[0].value), s, rows[1..], f);
    }
  }

  /** The last row naming an option sets its value. */
  lemma {:induction false} SaveIniLast(c: Ini.Config, s: string, rows: seq<Row>, i: nat)
    requires i < |rows|
    requires forall j :: i < j < |rows| ==> Ini.OptionKey(rows[j].key) != Ini.OptionKey(rows[i].key)
    ensures Ini.Get(SaveIni(c, s, rows), s, rows[i].key) == Some(rows[i].value)
    decreases |rows|
  {
    var c' := Ini.Set(c, s, rows[0].key, rows[0].value);
    if i == 0 {
      assert forall j :: 0 <= j < |rows[1..]| ==> rows[1..][j] == rows[j + 1];
      SaveIniKeeps(c', s, rows[1..], rows[0].key);
    } else {
      assert rows[i] == rows[1..][i - 1];
      assert forall j :: i - 1 < j < |rows[1..]| ==> rows[1..][j] == rows[j + 1];
      SaveIniLast(c', s, rows[1..], i - 1);
    }
  }

  /** A row that names no flattened key is skipped; otherwise the row's keys lead to its coerced value, text for a non-numeric original, and every path leaving those keys is unchanged. */
  lemma WriteRowEffect(flat: Dict, data: Json, s: string, r: Row, other: seq<string>, at: nat)
    requires WriteRow(flat, data, s, r).Continue?
    ensures Lookup(flat, s + "/" + r.key).None? ==> WriteRow(flat, data, s, r).data == data
    ensures Lookup(flat, s + "/" + r.key).Some? ==>
              var ks := Text.Split(s + "/" + r.key, '/');
              var orig := Lookup(flat, s + "/" + r.key).value;
              var after := WriteRow(flat, data, s, r).data;
              Coerce(orig, r.value).Some?
              && Navigate(after, ks) == Ok(Coerce(orig, r.value).value)
              && (!Numeric(orig) ==> Navigate(after, ks) == Ok(Str(r.value)))
              && (at < |ks| && at < |other| && other[..at] == ks[..at] && other[at] != ks[at] ==>
                    Navigate(after, other) == Navigate(data, other))
  {
    var ck := s + "/" + r.key;
    if Lookup(flat, ck).Some? {
      var ks := Text.Split(ck, '/');
      var v := Coerce(Lookup(flat, ck).value, r.value).value;
      UpdateSets(data, ks, v);
      if at < |ks| && at < |other| && other[..at] == ks[..at] && other[at] != ks[at] {
        UpdateElsewhere(data, ks, v, other, at);
      }
    }
  }

  /** A path that leads somewhere passes through an object at its last step. */
  lemma {:induction false} NavigateParent(j: Json, ks: seq<string>)
    requires |ks| >= 1 && Navigate(j, ks).Ok?
    ensures Navigate(j, ks[..|ks| - 1]).Ok? && Navigate(j, ks[..|ks| - 1]).value.Obj?
    decreases |ks|
  {
    var i := Find(j.members, ks[0]).value;
    if |ks| > 1 {
      NavigateParent(j.members[i].value, ks[1..]);
      assert ks[..|ks| - 1][1..] == ks[1..][..|ks[1..]| - 1];
    }
  }

  /** A row is unedited when it still shows the string or number its keys lead to. */
  predicate Unedited(flat: Dict, doc: Json, s: string, r: Row)
  {
    var ck := s + "/" + r.key;
    Lookup(flat, ck).None?
    || (var v := Lookup(flat, ck).value;
        (v.Str? || v.Num?) && r.value == Render(v) && Navigate(doc, Text.Split(ck, '/')) == Ok(v))
  }

  /** Saving rows nobody edited writes the document back as it was read. */
  lemma {:induction false} SaveUneditedKeeps(flat: Dict, doc: Json, s: string, rows: seq<Row>)
    requires forall i :: 0 <= i < |rows| ==> Unedited(flat, doc, s, rows[i])
    ensures SaveJson(flat, doc, s, rows) == Continue(doc)
    decreases |rows|
  {
    if rows != [] {
      var r := rows[0];
      var ck := s + "/" + r.key;
      if Lookup(flat, ck).Some? {
        var v := Lookup(flat, ck).value;
        var ks := Text.Split(ck, '/');
        NavigateParent(doc, ks);
        CoerceRender(v);
        UpdateSame(doc, ks, v);
      }
      assert forall i :: 0 <= i < |rows[1..]| ==> rows[1..][i] == rows[i + 1];
      SaveUneditedKeeps(flat, doc, s, rows[1..]);
    }
  }

  lemma RowsSnoc(f: Dict, e: Entry, s: string)
    ensures Rows(f + [e], s) == Rows(f, s) + (if ChildRow(e, s).Some? then [ChildRow(e, s).value] else [])
  {
    assert (f + [e])[..|f|] == f;
  }

  /** A value in a section that is a list can never be saved: the assignment into the list is a `TypeError`, unless the number is refused first. */
  lemma ListItemsNotSaved(flat: Dict, doc: Json, s: string, r: Row)
    requires '/' !in r.key
    requires Lookup(flat, s + "/" + r.key).Some?
    requires Navigate(doc, Text.Split(s, '/')).Ok? && Navigate(doc, Text.Split(s, '/')).value.Arr?
    ensures WriteRow(flat, doc, s, r) == Stop(Failed(TypeError)) || WriteRow(flat, doc, s, r) == Stop(Refused(r.key))
  {
    Text.SplitSnoc(s, r.key, '/');
    var ks := Text.Split(s + "/" + r.key, '/');
    assert ks[..|ks| - 1] == Text.Split(s, '/');
  }

  /**
   * The "Value" row of a top-level scalar is never saved: in a slash-free
   * document no flattened key lies below a scalar, so `section/Value` is
   * not one.
   */
  lemma ValueRowNotSaved(doc: Json, s: string)
    requires WellFormed(doc) && SlashFree(doc) && doc.Obj?
    requires Find(doc.members, s).Some? && IsLeaf(doc.members[Find(doc.members, s).value].value)
    ensures s + "/" + "Value" !in KeySet(Flattened(doc))
  {
    var f := Flattened(doc);
    if s + "/" + "Value" in KeySet(f) {
      var i :| 0 <= i < |f| && f[i].key == s + "/" + "Value";
      FlattenedSound(doc, i);
      var p: seq<Step> :| At(doc, p) == Some(f[i].value) && f[i].key == KeyOf(p);
      NothingBelowScalar(doc, s, "Value", p);
      assert false;
    }
  }

  /** No path reaching a value is named `s/w` when `s` names a top-level scalar. */
  lemma NothingBelowScalar(doc: Json, s: string, w: string, p: seq<Step>)
    requires SlashFree(doc) && doc.Obj? && '/' !in w
    requires Find(doc.members, s).Some? && IsLeaf(doc.members[Find(doc.members, s).value].value)
    requires At(doc, p).Some?
    ensures KeyOf(p) != s + "/" + w
  {
    if KeyOf(p) == s + "/" + w {
      var m := Find(doc.members, s).value;
      assert doc.members[m].key == s;
      assert '/' !in s;
      Text.SplitNoSep(w, '/');
      Text.SplitNoSep(s, '/');
      Text.SplitSnoc(s, w, '/');
      assert s + "/" + w == s + ['/'] + w;
      TextsOfReachable(doc, p);
      assert p != [] by { assert KeyOf([]) == ""; }
      Text.SplitJoin(Texts(p), '/');
      assert false;
    }
  }

  // ---- the two backup paths ----

  lemma ReplaceAllKeeps(s: string, pat: string, c: char)
    requires |pat| > 0 && c !in s
    ensures c !in Text.ReplaceAll(s, pat, "")
    decreases |s|
  {
    if |s| >= |pat| {
      if s[..|pat|] == pat {
        assert forall i :: 0 <= i < |s[|pat|..]| ==> s[|pat|..][i] == s[|pat| + i];
        ReplaceAllKeeps(s[|pat|..], pat, c);
      } else {
        ReplaceAllKeeps(s[1..], pat, c);
      }
    }
  }

  /** Joining onto a path that has a host folder in front keeps it in front. */
  lemma PathJoinBehind(host: string, n: string, b: string)
    requires !Text.StartsWith(b, "/")
    ensures Text.PathJoin(host + "/" + n, b) == host + "/" + Text.PathJoin(n, b)
  {
    var a := host + "/" + n;
    assert a[|a| - 1] == (if n == [] then '/' else n[|n| - 1]);
  }

  lemma PathJoinNoLead(n: string, b: string)
    requires !Text.StartsWith(n, "/") && !Text.StartsWith(b, "/")
    ensures !Text.StartsWith(Text.PathJoin(n, b), "/")
  {
    NoLead(n);
    NoLead(b);
    NoLead(Text.PathJoin(n, b));
    if n != [] {
      assert Text.PathJoin(n, b)[0] == n[0];
    }
  }

  lemma NoLead(p: string)
    ensures !Text.StartsWith(p, "/") <==> p == [] || p[0] != '/'
  {
    if p != [] {
      assert p[..1][0] == p[0];
      assert p[0] == '/' ==> p[..1] == "/";
    }
  }

  /** Joining pieces not starting with `/` onto a host name puts the host, then a `/`, in front. */
  lemma {:induction false} JoinAfterHost(host: string, parts: seq<string>)
    requires host != [] && host[|host| - 1] != '/'
    requires |parts| >= 1
    requires forall i :: 0 <= i < |parts| ==> !Text.StartsWith(parts[i], "/")
    ensures JoinParts([host] + parts) == host + "/" + JoinParts(parts)
    ensures !Text.StartsWith(JoinParts(parts), "/")
    decreases |parts|
  {
    var all := [host] + parts;
    if |parts| == 1 {
      assert all[..1] == [host];
      assert all[..|all| - 1] == [host];
    } else {
      var init := parts[..|parts| - 1];
      var last := parts[|parts| - 1];
      assert forall i :: 0 <= i < |init| ==> init[i] == parts[i];
      assert !Text.StartsWith(last, "/");
      JoinAfterHost(host, init);
      var front := JoinParts(init);
      assert all[..|all| - 1] == [host] + init && all[|all| - 1] == last;
      assert JoinParts(all) == Text.PathJoin(host + "/" + front, last);
      assert JoinParts(parts) == Text.PathJoin(front, last);
      PathJoinBehind(host, front, last);
      PathJoinNoLead(front, last);
    }
  }

  /**
   * A restore never finds the file a save backed up: the restore path has
   * the host name as an extra folder, so it is longer.
   */
  lemma RestoreLooksElsewhere(configDir: string, pid: string, host: string, file: string)
    requires host != [] && '/' !in host
    ensures RestorePath(configDir, pid, host, file) != BackupPath(configDir, pid, file)
  {
    var parts := PathParts(file);
    var raw := Text.Split(file, '/');
    Text.SplitPieces(file, '/');
    ReplaceAllKeeps(raw[0], ":", '/');
    forall i | 0 <= i < |parts| ensures !Text.StartsWith(parts[i], "/") {
      if i > 0 { assert parts[i] == raw[i]; }
      NoLead(parts[i]);
    }
    assert host[|host| - 1] in host;
    JoinAfterHost(host, parts);
    var n := JoinParts(parts);
    var folder := BackupFolder(configDir, pid);
    assert !Text.StartsWith(host + "/" + n, "/");
    assert !Text.StartsWith(n, "/");
    assert |Text.PathJoin(folder, host + "/" + n)| == |Text.PathJoin(folder, n)| + |host| + 1;
  }

  // ---- reset (lines 390-409) ----

  /** A row restored to its recorded value, or left alone when it has none. */
  function Restored(r: Row, initial: map<string, string>): Row
  {
    if r.key in initial then Row(r.key, initial[r.key]) else r
  }

  /** Whatever was typed into a table with distinct keys, a reset brings back the rows it was filled with. */
  lemma ResetUndoesEdits(shown: seq<Row>, edited: seq<Row>)
    requires DistinctRows(shown)
    requires |edited| == |shown| && forall i :: 0 <= i < |shown| ==> edited[i].key == shown[i].key
    ensures forall i :: 0 <= i < |shown| ==> Restored(edited[i], InitialOf(shown)) == shown[i]
  {
    InitialValues(shown);
  }

  // ---- the dialog ----

  class Editor {
    const pid: string
    /** `user_config_file`, under which the backups live. */
    const configDir: string
    /** The watched files and the backups, by path. */
    var files: map<string, Content>
    var rows: seq<Row>
    var initial: map<string, string>

    /** Lines 22-68: the dialog opens with the placeholders selected and an empty table. */
    constructor (pid: string, configDir: string, files: map<string, Content>)
      ensures this.pid == pid && this.configDir == configDir && this.files == files
      ensures rows == [] && initial == map[]
    {
      this.pid := pid;
      this.configDir := configDir;
      this.files := files;
      rows := [];
      initial := map[];
    }

    /** Lines 240-282: fill the table from the chosen section and record each value shown. */
    method Populate(file: string, section: string) returns (raised: Option<Error>)
      requires file == NoFile || file in files
      modifies this`rows, this`initial
      ensures file == NoFile ==> raised == None && rows == old(rows) && initial == old(initial)
      ensures file != NoFile && files[file].JsonFile? ==>
                (rows, raised) == JsonTable(files[file].doc, section) && initial == InitialOf(rows)
      ensures file != NoFile && files[file].BadJson? ==> rows == [] && initial == map[] && raised == Some(ValueError)
      ensures file != NoFile && files[file].IniFile? ==>
                raised == None
                && (section in files[file].config ==> Lists(rows, files[file].config[section]) && initial == files[file].config[section])
                && (section !in files[file].config ==> rows == [] && initial == map[])
    {
      raised := None;
      if file == NoFile {
        return;
      }
      rows := [];
      initial := map[];
      match files[file]
      case IniFile(c) =>
        if section in c {
          IniRows(c[section]);
        }
      case JsonFile(doc) =>
        var flat := FlattenJson(doc);
        JsonRows(flat, section);
        match ValueRow(doc, section) {
          case Ok(Some(r)) =>
            rows := rows + [r];
            initial := initial[r.key := r.value];
            assert rows[..|rows| - 1] == Rows(flat, section);
          case Ok(None) =>
          case Err(e) =>
            raised := Some(e);
        }
      case BadJson =>
        raised := Some(ValueError);
    }

    /** Lines 259-262: one row per option of the section, recorded as shown. */
    method IniRows(sec: Ini.Section)
      requires rows == [] && initial == map[]
      modifies this`rows, this`initial
      ensures Lists(rows, sec) && initial == sec
    {
      var todo: set<string>, rs: seq<Row>, init: map<string, string> := sec.Keys, [], map[];
      while todo != {}
        invariant todo <= sec.Keys
        invariant forall i :: 0 <= i < |rs| ==> rs[i].key in sec && rs[i].key !in todo && sec[rs[i].key] == rs[i].value
        invariant forall k :: k in sec && k !in todo ==> exists i :: 0 <= i < |rs| && rs[i].key == k
        invariant forall i, j :: 0 <= i < j < |rs| ==> rs[i].key != rs[j].key
        invariant init.Keys == sec.Keys - todo && forall k :: k in init ==> init[k] == sec[k]
        decreases |todo|
      {
        var k :| k in todo;
        ghost var prev := rs;
        rs := rs + [Row(k, sec[k])];
        init := init[k := sec[k]];
        assert forall i :: 0 <= i < |prev| ==> rs[i] == prev[i];
        assert rs[|prev|].key == k;
        todo := todo - {k};
      }
      rows, initial := rs, init;
    }

    /** Lines 271-277: the rows of the flattened entries one level below the section. */
    method JsonRows(flat: Dict, section: string)
      requires rows == [] && initial == map[]
      modifies this`rows, this`initial
      ensures rows == Rows(flat, section) && initial == InitialOf(rows)
    {
      for i := 0 to |flat|
        invariant rows == Rows(flat[..i], section) && initial == InitialOf(rows)
      {
        RowsSnoc(flat[..i], flat[i], section);
        assert flat[..i + 1] == flat[..i] + [flat[i]];
        var r := ChildRow(flat[i], section);
        if r.Some? {
          ghost var prev := rows;
          rows := rows + [r.value];
          initial := initial[r.value.key := r.value.value];
          assert rows[..|rows| - 1] == prev;
        }
      }
      assert flat[..|flat|] == flat;
    }

    /** Lines 300-382: back the file up once, then write the rows into it. */
    method Save(file: string, section: string) returns (status: SaveStatus)
      requires file == NoFile || file in files
      modifies this`files
      ensures file == NoFile || section == NoSection ==> status == Skipped && files == old(files)
      ensures file != NoFile ==> (status, files) == SaveSpec(old(files), configDir, pid, file, section, rows)
    {
      if file == NoFile || section == NoSection {
        return Skipped;
      }
      var backup := BackupPath(configDir, pid, file);
      if backup !in files {
        files := files[backup := files[file]];
      }
      match files[file] {
        case IniFile(c) =>
          var cfg := WriteIni(c, section, rows);
          files := files[file := IniFile(cfg)];
          status := Saved;
        case JsonFile(doc) =>
          var p := WriteJson(doc, section, rows);
          match p {
            case Continue(d) =>
              files := files[file := JsonFile(d)];
              status := Saved;
            case Stop(st) =>
              status := st;
          }
        case BadJson =>
          status := Failed(ValueError);
      }
    }

    /** Lines 334-341. */
    static method WriteIni(c: Ini.Config, section: string, rows: seq<Row>) returns (cfg: Ini.Config)
      ensures cfg == SaveIni(c, section, rows)
    {
      cfg := c;
      for i := 0 to |rows|
        invariant SaveIni(c, section, rows) == SaveIni(cfg, section, rows[i..])
      {
        assert rows[i..][1..] == rows[i + 1..];
        cfg := Ini.Set(cfg, section, rows[i].key, rows[i].value);
      }
      assert rows[|rows|..] == [];
    }

    /** Lines 346-382: flatten the document as read, then write each row into it until one fails. */
    static method WriteJson(doc: Json, section: string, rows: seq<Row>) returns (p: Progress)
      ensures p == SaveJson(Flattened(doc), doc, section, rows)
    {
      var flat := FlattenJson(doc);
      var data := doc;
      for i := 0 to |rows|
        invariant SaveJson(flat, doc, section, rows) == SaveJson(flat, data, section, rows[i..])
      {
        assert rows[i..][0] == rows[i] && rows[i..][1..] == rows[i + 1..];
        var step := SaveRow(flat, data, section, rows[i]);
        if step.Stop? {
          return step;
        }
        data := step.data;
      }
      assert rows[|rows|..] == [];
      p := Continue(data);
    }

    /** Lines 352-379 for one row. */
    static method SaveRow(flat: Dict, data: Json, section: string, r: Row) returns (p: Progress)
      ensures p == WriteRow(flat, data, section, r)
    {
      var ck := section + "/" + r.key;
      var orig := Lookup(flat, ck);
      if orig.None? {
        return Continue(data);
      }
      var ks := Text.Split(ck, '/');
      var sub := Descend(data, ks[..|ks| - 1]);
      match sub
      case Err(e) =>
        p := Stop(Failed(e));
      case Ok(target) =>
        match Coerce(orig.value, r.value)
        case None =>
          p := Stop(Refused(r.key));
        case Some(v) =>
          p := if target.Obj? then Continue(Update(data, ks, v)) else Stop(Failed(TypeError));
    }

    /** Lines 358-360: walk down the document one key at a time. */
    static method Descend(data: Json, ks: seq<string>) returns (r: Result<Json>)
      ensures r == Navigate(data, ks)
    {
      var sub := data;
      for i := 0 to |ks|
        invariant Navigate(data, ks) == Navigate(sub, ks[i..])
      {
        assert ks[i..][0] == ks[i] && ks[i..][1..] == ks[i + 1..];
        match sub {
          case Obj(ms) =>
            match Find(ms, ks[i]) {
              case Some(j) =>
                sub := ms[j].value;
              case None =>
                return Err(KeyError);
            }
          case _ =>
            return Err(TypeError);
        }
      }
      assert ks[|ks|..] == [];
      r := Ok(sub);
    }

    /** Lines 390-409: every row with a recorded value is set back to it. */
    method Reset()
      modifies this`rows
      ensures |rows| == |old(rows)|
      ensures forall i :: 0 <= i < |rows| ==> rows[i] == Restored(old(rows)[i], initial)
    {
      for i := 0 to |rows|
        invariant |rows| == |old(rows)|
        invariant forall j :: 0 <= j < i ==> rows[j] == Restored(old(rows)[j], initial)
        invariant forall j :: i <= j < |rows| ==> rows[j] == old(rows)[j]
      {
        if rows[i].key in initial {
          rows := rows[i := Row(rows[i].key, initial[rows[i].key])];
        }
      }
    }
  }
}
