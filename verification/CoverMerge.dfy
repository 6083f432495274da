/**
  Merging set-mode coverage profiles: parse every row of every file, union the blocks, fail on
  disagreeing statement counts, print the blocks in order of location.
 */
module CoverMerge {
  import opened Wrappers
  import opened Ordering
  import opened Text

  datatype MergeError = ModeNotSet | MalformedRow | InvalidStatements | InvalidCount | Inconsistent

  datatype Block = Block(statements: nat, covered: bool)

  type Profile = map<string, Block>

  datatype Row = Row(location: string, statements: nat, covered: bool)

  const HEADER := "mode: set"

  const MAX_INT: nat := 0x7fff_ffff_ffff_ffff

  const MAX_UINT: nat := 0xffff_ffff_ffff_ffff

  // ---------------------------------------------------------------- text

  /** unicode.IsSpace. */
  predicate Space(c: char) {
    || c in "\t\n\U{0B}\U{0C}\r \U{85}\U{A0}\U{1680}\U{2028}\U{2029}\U{202F}\U{205F}\U{3000}"
    || '\U{2000}' <= c <= '\U{200A}'
  }

  /** The length of the leading run of characters that are (not) space. */
  function Prefix(s: string, space: bool): (n: nat)
    ensures n <= |s|
    ensures forall k :: 0 <= k < n ==> Space(s[k]) == space
    ensures n < |s| ==> Space(s[n]) != space
  {
    if s == [] || Space(s[0]) != space then 0 else 1 + Prefix(s[1..], space)
  }

  /** strings.Fields: the maximal runs of non-space. */
  function Fields(s: string): (fields: seq<string>)
    ensures forall k :: 0 <= k < |fields| ==> Word(fields[k])
    decreases |s|
  {
    var t := s[Prefix(s, true)..];
    if t == [] then []
    else
      var n := Prefix(t, false);
      assert Word(t[..n]);
      [t[..n]] + Fields(t[n..])
  }

  predicate Word(w: string) {
    w != [] && forall k :: 0 <= k < |w| ==> !Space(w[k])
  }

  /** strconv.ParseUint in base ten, 64 bits. */
  function ParseUint(s: string): Option<nat> {
    if Digits(s) && Number(s) <= MAX_UINT then Some(Number(s)) else None
  }

  /** strconv.Atoi: an optional sign, then digits within 64 bits. */
  function Atoi(s: string): Option<int> {
    if s == [] then None
    else
      var signed := s[0] == '+' || s[0] == '-';
      var rest := if signed then s[1..] else s;
      if !Digits(rest) then None
      else if s[0] == '-' then (if Number(rest) <= MAX_INT + 1 then var n: int := Number(rest); Some(-n) else None)
      else if Number(rest) <= MAX_INT then Some(Number(rest)) else None
  }

  lemma DigitsAreWords(s: string)
    requires Digits(s)
    ensures Word(s)
  {
  }

  // ---------------------------------------------------------------- rows and profiles

  function ParseRow(line: string): Result<Row, MergeError> {
    var fields := Fields(line);
    if |fields| != 3 then Err(MalformedRow)
    else
      var statements := Atoi(fields[1]);
      if statements.None? || statements.value < 0 then Err(InvalidStatements)
      else
        var count := ParseUint(fields[2]);
        if count.None? then Err(InvalidCount)
        else Ok(Row(fields[0], statements.value, count.value > 0))
  }

  predicate Clashes(p: Profile, r: Row) {
    r.location in p && p[r.location].statements != r.statements
  }

  function AddRow(p: Profile, r: Row): Profile {
    p[r.location := Block(r.statements, r.covered || (r.location in p && p[r.location].covered))]
  }

  function AddLine(p: Profile, line: string): Result<Profile, MergeError> {
    match ParseRow(line)
    case Err(e) => Err(e)
    case Ok(r) => if Clashes(p, r) then Err(Inconsistent) else Ok(AddRow(p, r))
  }

  function AddLines(p: Profile, lines: seq<string>): Result<Profile, MergeError> {
    if lines == [] then Ok(p)
    else match AddLines(p, lines[..|lines| - 1])
      case Err(e) => Err(e)
      case Ok(q) => AddLine(q, lines[|lines| - 1])
  }

  /** A file is the lines of its text. */
  type File = seq<string>

  function AddFile(p: Profile, f: File): Result<Profile, MergeError> {
    if f == [] || f[0] != HEADER then Err(ModeNotSet) else AddLines(p, f[1..])
  }

  function MergeFiles(files: seq<File>): Result<Profile, MergeError> {
    if files == [] then Ok(map[])
    else match MergeFiles(files[..|files| - 1])
      case Err(e) => Err(e)
      case Ok(p) => AddFile(p, files[|files| - 1])
  }

  ghost predicate Listing(keys: seq<string>, p: Profile) {
    && Sorted(keys, TextLE)
    && (forall i, j :: 0 <= i < j < |keys| ==> keys[i] != keys[j])
    && (forall k :: k in keys <==> k in p)
  }

  function PrintRow(location: string, b: Block): string {
    location + " " + Decimal(b.statements) + " " + (if b.covered then "1" else "0")
  }

  function PrintRows(p: Profile, keys: seq<string>): seq<string>
    requires forall k :: k in keys ==> k in p
  {
    seq(|keys|, i requires 0 <= i < |keys| => PrintRow(keys[i], p[keys[i]]))
  }

  /** `out` prints the blocks of p in ascending order of location. */
  ghost predicate Prints(p: Profile, out: File) {
    exists keys :: Listing(keys, p) && out == [HEADER] + PrintRows(p, keys)
  }

  method Merge(files: seq<File>) returns (out: Result<File, MergeError>)
    ensures out.Ok? <==> MergeFiles(files).Ok?
    ensures out.Ok? ==> Prints(MergeFiles(files).value, out.value)
    ensures out.Err? ==> MergeFiles(files) == Err(out.error)
  {
    hide ParseRow, AddRow, Prints, AddLines, MergeFiles;
    NoFiles(files);
    var blocks: Profile := map[];
    for n := 0 to |files|
      invariant MergeFiles(files[..n]) == Ok(blocks)
    {
      var file := files[n];
      NextFile(files, n, blocks);
      if |file| == 0 || file[0] != HEADER {
        FailedPrefix(files, n + 1);
        return Err(ModeNotSet);
      }
      ghost var before := blocks;
      var lines := file[1..];
      NoLines(before, lines);
      for i := 0 to |lines|
        invariant AddLines(before, lines[..i]) == Ok(blocks)
      {
        NextLine(before, lines, i, blocks);
        var parsed := ParseRow(lines[i]);
        if parsed.Err? {
          FailedLines(before, lines, i + 1);
          FailedPrefix(files, n + 1);
          return Err(parsed.error);
        }
        var r := parsed.value;
        if r.location in blocks && blocks[r.location].statements != r.statements {
          FailedLines(before, lines, i + 1);
          FailedPrefix(files, n + 1);
          return Err(Inconsistent);
        }
        blocks := AddRow(blocks, r);
      }
    }

    var text := Print(blocks);
    return Ok(text);
  }

  /** The blocks in ascending order of location, below the mode line. */
  method Print(blocks: Profile) returns (text: File)
    ensures Prints(blocks, text)
  {
    hide SortedSet, PrintRow, Sorted;
    var keys := OrderedKeys(blocks);
    text := [HEADER];
    for i := 0 to |keys|
      invariant text == [HEADER] + PrintRows(blocks, keys)[..i]
    {
      text := text + [PrintRow(keys[i], blocks[keys[i]])];
    }
    assert PrintRows(blocks, keys)[..|keys|] == PrintRows(blocks, keys);
  }

  method OrderedKeys(blocks: Profile) returns (keys: seq<string>)
    ensures Listing(keys, blocks)
  {
    hide SortedSet, Sorted;
    var left, ordered := blocks.Keys, [];
    while left != {}
      invariant forall k :: k in blocks <==> k in left || k in ordered
      invariant forall k :: k in ordered ==> k !in left
      decreases |left|
    {
      var k :| k in left;
      left, ordered := left - {k}, ordered + [k];
    }
    // The locations are distinct already, so sorting them is listing the set.
    keys := SortedSet(ordered, TextLE);
    TextOrder();
    SortedSetProperties(ordered, TextLE);
  }

  lemma NoLines(p: Profile, lines: seq<string>)
    ensures AddLines(p, lines[..0]) == Ok(p) && lines[..|lines|] == lines
  {
  }

  lemma NoFiles(files: seq<File>)
    ensures MergeFiles(files[..0]) == Ok(map[]) && files[..|files|] == files
  {
  }

  lemma NextLine(p: Profile, lines: seq<string>, i: nat, q: Profile)
    requires i < |lines| && AddLines(p, lines[..i]) == Ok(q)
    ensures AddLines(p, lines[..i + 1]) == AddLine(q, lines[i])
  {
    hide AddLine;
    assert lines[..i + 1][..i] == lines[..i];
  }

  lemma NextFile(files: seq<File>, n: nat, p: Profile)
    requires n < |files| && MergeFiles(files[..n]) == Ok(p)
    ensures MergeFiles(files[..n + 1]) == AddFile(p, files[n])
  {
    hide AddFile;
    assert files[..n + 1][..n] == files[..n];
  }

  lemma {:induction false} FailedLines(p: Profile, lines: seq<string>, i: nat)
    requires i <= |lines| && AddLines(p, lines[..i]).Err?
    ensures AddLines(p, lines) == AddLines(p, lines[..i])
  {
    if i == |lines| {
      assert lines[..i] == lines;
    } else {
      assert lines[..|lines| - 1][..i] == lines[..i];
      FailedLines(p, lines[..|lines| - 1], i);
    }
  }

  lemma {:induction false} FailedPrefix(files: seq<File>, n: nat)
    requires n <= |files| && MergeFiles(files[..n]).Err?
    ensures MergeFiles(files) == MergeFiles(files[..n])
  {
    if n == |files| {
      assert files[..n] == files;
    } else {
      assert files[..|files| - 1][..n] == files[..n];
      FailedPrefix(files[..|files| - 1], n);
    }
  }

  // ---------------------------------------------------------------- what a merge is

  /** The rows of lines that all parse. */
  function Rows(lines: seq<string>): seq<Row> {
    if lines == [] then []
    else Rows(lines[..|lines| - 1]) + (match ParseRow(lines[|lines| - 1]) case Ok(r) => [r] case Err(_) => [])
  }

  function AllRows(files: seq<File>): seq<Row> {
    if files == [] then []
    else
      var f := files[|files| - 1];
      AllRows(files[..|files| - 1]) + (if f == [] then [] else Rows(f[1..]))
  }

  ghost predicate WellFormed(f: File) {
    f != [] && f[0] == HEADER && forall i :: 0 < i < |f| ==> ParseRow(f[i]).Ok?
  }

  ghost predicate Agree(rows: seq<Row>) {
    forall i, j :: 0 <= i < |rows| && 0 <= j < |rows| && rows[i].location == rows[j].location ==>
      rows[i].statements == rows[j].statements
  }

  ghost predicate Says(rows: seq<Row>, location: string, statements: nat) {
    exists i :: 0 <= i < |rows| && rows[i].location == location && rows[i].statements == statements
  }

  ghost predicate Covers(rows: seq<Row>, location: string) {
    exists i :: 0 <= i < |rows| && rows[i].location == location && rows[i].covered
  }

  /** p is the union of the rows: each block as counted, covered when any row covers it. */
  ghost predicate IsUnion(p: Profile, rows: seq<Row>) {
    && Agree(rows)
    && (forall location :: location in p ==> Says(rows, location, p[location].statements))
    && (forall location :: location in p ==> (p[location].covered <==> Covers(rows, location)))
    && (forall i :: 0 <= i < |rows| ==> rows[i].location in p)
  }

  lemma UnionStep(p: Profile, rows: seq<Row>, r: Row)
    requires IsUnion(p, rows)
    ensures Clashes(p, r) <==> !Agree(rows + [r])
    ensures !Clashes(p, r) ==> IsUnion(AddRow(p, r), rows + [r])
  {
    var more := rows + [r];
    assert more[|rows|] == r;
    assert forall i :: 0 <= i < |rows| ==> more[i] == rows[i];
    if Clashes(p, r) {
      var i :| 0 <= i < |rows| && rows[i].location == r.location && rows[i].statements == p[r.location].statements;
      assert more[i].location == more[|rows|].location && more[i].statements != more[|rows|].statements;
    } else {
      var q := AddRow(p, r);
      assert Agree(more) by {
        forall i | 0 <= i < |rows| && rows[i].location == r.location
          ensures rows[i].statements == r.statements
        {
          assert r.location in p;
          var j :| 0 <= j < |rows| && rows[j].location == r.location && rows[j].statements == p[r.location].statements;
        }
      }
      forall location | location in q
        ensures Says(more, location, q[location].statements)
        ensures q[location].covered <==> Covers(more, location)
      {
        if location == r.location {
          assert more[|rows|].location == location;
          if location in p && p[location].covered {
            var i :| 0 <= i < |rows| && rows[i].location == location && rows[i].covered;
            assert more[i].covered;
          }
        } else {
          var i :| 0 <= i < |rows| && rows[i].location == location && rows[i].statements == p[location].statements;
          assert more[i].location == location;
          if Covers(rows, location) {
            var k :| 0 <= k < |rows| && rows[k].location == location && rows[k].covered;
            assert more[k].covered;
          }
        }
      }
    }
  }

  lemma {:induction false} LinesUnion(p: Profile, rows: seq<Row>, lines: seq<string>)
    requires IsUnion(p, rows)
    ensures AddLines(p, lines).Ok? <==>
      (forall i :: 0 <= i < |lines| ==> ParseRow(lines[i]).Ok?) && Agree(rows + Rows(lines))
    ensures AddLines(p, lines).Ok? ==> IsUnion(AddLines(p, lines).value, rows + Rows(lines))
  {
    hide IsUnion, ParseRow, AddRow, Agree, Clashes;
    if lines == [] {
      assert rows + Rows(lines) == rows;
      UnionAgrees(p, rows);
    } else {
      var before, last := lines[..|lines| - 1], lines[|lines| - 1];
      LinesUnion(p, rows, before);
      assert forall i :: 0 <= i < |before| ==> before[i] == lines[i];
      if ParseRow(last).Ok? {
        var r := ParseRow(last).value;
        assert rows + Rows(lines) == (rows + Rows(before)) + [r];
        AgreePrefix(rows + Rows(before), r);
        if AddLines(p, before).Ok? {
          UnionStep(AddLines(p, before).value, rows + Rows(before), r);
        }
      }
    }
  }

  lemma UnionAgrees(p: Profile, rows: seq<Row>)
    requires IsUnion(p, rows)
    ensures Agree(rows)
  {
  }

  lemma AgreePrefix(rows: seq<Row>, r: Row)
    ensures Agree(rows + [r]) ==> Agree(rows)
  {
    if Agree(rows + [r]) {
      assert forall i :: 0 <= i < |rows| ==> (rows + [r])[i] == rows[i];
    }
  }

  lemma AgreeFirst(a: seq<Row>, b: seq<Row>)
    ensures Agree(a + b) ==> Agree(a)
  {
    if Agree(a + b) {
      assert forall i :: 0 <= i < |a| ==> (a + b)[i] == a[i];
    }
  }

  /**
    A merge succeeds exactly when every file has the mode line and well-formed rows and no two
    rows count the same block differently; its result is then the union of all the rows.
   */
  lemma {:induction false} MergeIsUnion(files: seq<File>)
    ensures MergeFiles(files).Ok? <==> (forall i :: 0 <= i < |files| ==> WellFormed(files[i])) && Agree(AllRows(files))
    ensures MergeFiles(files).Ok? ==> IsUnion(MergeFiles(files).value, AllRows(files))
  {
    hide ParseRow, IsUnion, Agree, AddLines, Rows;
    if files == [] {
      EmptyUnion();
    } else {
      var before, f := files[..|files| - 1], files[|files| - 1];
      MergeIsUnion(before);
      assert forall i :: 0 <= i < |before| ==> before[i] == files[i];
      if f != [] {
        AgreeFirst(AllRows(before), Rows(f[1..]));
        if f[0] == HEADER {
          WellFormedRows(f);
        }
        if MergeFiles(before).Ok? {
          LinesUnion(MergeFiles(before).value, AllRows(before), f[1..]);
        }
      }
    }
  }

  lemma WellFormedRows(f: File)
    requires f != [] && f[0] == HEADER
    ensures WellFormed(f) <==> forall i :: 0 <= i < |f[1..]| ==> ParseRow(f[1..][i]).Ok?
  {
    hide ParseRow;
    assert forall i :: 0 < i < |f| ==> f[i] == f[1..][i - 1];
  }

  lemma EmptyUnion()
    ensures IsUnion(map[], [])
  {
  }

  /** A union is determined by which rows there are. */
  lemma UnionUnique(p: Profile, q: Profile, a: seq<Row>, b: seq<Row>)
    requires IsUnion(p, a) && IsUnion(q, b) && forall r :: r in a <==> r in b
    ensures p == q
  {
    forall location
      ensures location in p <==> location in q
      ensures location in p ==> p[location] == q[location]
    {
      RowsDecide(p, q, a, b, location);
      RowsDecide(q, p, b, a, location);
    }
  }

  lemma RowsDecide(p: Profile, q: Profile, a: seq<Row>, b: seq<Row>, location: string)
    requires IsUnion(p, a) && IsUnion(q, b) && (forall r :: r in a <==> r in b)
    ensures location in p ==> location in q && p[location].statements == q[location].statements
    ensures location in p && p[location].covered ==> location in q && q[location].covered
  {
    if location in p {
      var i :| 0 <= i < |a| && a[i].location == location && a[i].statements == p[location].statements;
      assert a[i] in b;
      var j :| 0 <= j < |b| && b[j] == a[i];
      var k :| 0 <= k < |b| && b[k].location == location && b[k].statements == q[location].statements;
      if p[location].covered {
        var c :| 0 <= c < |a| && a[c].location == location && a[c].covered;
        assert a[c] in b;
        var d :| 0 <= d < |b| && b[d] == a[c];
      }
    }
  }

  /** Neither the order of the files, nor that of their rows, nor repeating either matters. */
  lemma OrderDoesNotMatter(a: seq<File>, b: seq<File>)
    requires forall i :: 0 <= i < |a| ==> WellFormed(a[i])
    requires forall i :: 0 <= i < |b| ==> WellFormed(b[i])
    requires forall r :: r in AllRows(a) <==> r in AllRows(b)
    ensures MergeFiles(a).Ok? <==> MergeFiles(b).Ok?
    ensures MergeFiles(a).Ok? ==> MergeFiles(a) == MergeFiles(b)
  {
    hide WellFormed, IsUnion, Agree;
    MergeIsUnion(a);
    MergeIsUnion(b);
    if Agree(AllRows(a)) {
      AgreeOfMembers(AllRows(a), AllRows(b));
    }
    if Agree(AllRows(b)) {
      AgreeOfMembers(AllRows(b), AllRows(a));
    }
    if MergeFiles(a).Ok? {
      UnionUnique(MergeFiles(a).value, MergeFiles(b).value, AllRows(a), AllRows(b));
    }
  }

  lemma AgreeOfMembers(a: seq<Row>, b: seq<Row>)
    requires Agree(a) && forall r :: r in b ==> r in a
    ensures Agree(b)
  {
    forall i, j | 0 <= i < |b| && 0 <= j < |b| && b[i].location == b[j].location
      ensures b[i].statements == b[j].statements
    {
      assert b[i] in a && b[j] in a;
    }
  }

  // ---------------------------------------------------------------- printing and reading back

  lemma {:induction false} PrefixOfWord(w: string, s: string)
    requires (forall k :: 0 <= k < |w| ==> !Space(w[k])) && (s != [] ==> Space(s[0]))
    ensures Prefix(w + s, false) == |w|
  {
    if w != [] {
      assert (w + s)[1..] == w[1..] + s;
      PrefixOfWord(w[1..], s);
    } else {
      assert w + s == s;
    }
  }

  lemma FieldsOfWord(w: string, s: string)
    requires Word(w) && (s != [] ==> Space(s[0]))
    ensures Fields(w + s) == [w] + Fields(s)
  {
    PrefixOfWord(w, s);
    assert Prefix(w + s, true) == 0;
    assert (w + s)[0..] == w + s;
    assert (w + s)[..|w|] == w && (w + s)[|w|..] == s;
  }

  lemma FieldsAfterSpace(s: string)
    ensures Fields(" " + s) == Fields(s)
  {
    assert (" " + s)[1..] == s;
    assert Prefix(" " + s, true) == 1 + Prefix(s, true);
    assert (" " + s)[1 + Prefix(s, true)..] == s[Prefix(s, true)..];
  }

  predicate Printable(location: string, b: Block) {
    Word(location) && b.statements <= MAX_INT
  }

  lemma RowReads(location: string, b: Block)
    requires Printable(location, b)
    ensures ParseRow(PrintRow(location, b)) == Ok(Row(location, b.statements, b.covered))
  {
    hide Fields, Prefix, Number, Decimal, Space;
    var n, c := Decimal(b.statements), if b.covered then "1" else "0";
    assert Digit('0') && Digit('1') && Space(' ') by {
      SpaceAndDigits();
    }
    ThreeFields(location, n, c);
    DecimalReads(b.statements);
    OneDigit(b.covered);
    assert n[0] != '+' && n[0] != '-';
  }

  lemma SpaceAndDigits()
    ensures Digit('0') && Digit('1') && Space(' ')
    ensures forall c :: Digit(c) ==> !Space(c)
  {
  }

  lemma OneDigit(covered: bool)
    ensures var c := if covered then "1" else "0"; Digits(c) && Number(c) == if covered then 1 else 0
  {
    assert "1"[..0] == [] && "0"[..0] == [];
  }

  lemma ThreeFields(a: string, b: string, c: string)
    requires Word(a) && Digits(b) && Digits(c)
    ensures Fields(a + " " + b + " " + c) == [a, b, c]
  {
    hide Fields, Digits;
    DigitsAreWords(b);
    DigitsAreWords(c);
    var tail := " " + c;
    var middle := " " + (b + tail);
    Associates(a, b, c);
    SpacedWord(a, middle);
    FieldsAfterSpace(b + tail);
    SpacedWord(b, tail);
    FieldsAfterSpace(c);
    LastWord(c);
  }

  lemma Associates(a: string, b: string, c: string)
    ensures a + " " + b + " " + c == a + (" " + (b + (" " + c)))
  {
  }

  lemma SpacedWord(w: string, s: string)
    requires Word(w) && s != [] && s[0] == ' '
    ensures Fields(w + s) == [w] + Fields(s)
  {
    hide Fields;
    SpaceAndDigits();
    FieldsOfWord(w, s);
  }

  lemma LastWord(w: string)
    requires Word(w)
    ensures Fields(w) == [w]
  {
    hide Fields;
    NoFields();
    assert w + [] == w;
    FieldsOfWord(w, []);
  }

  lemma NoFields()
    ensures Fields([]) == []
  {
  }

  /** Every block a merge yields can be printed and read back. */
  lemma {:induction false} RowsPrintable(lines: seq<string>)
    ensures forall i :: 0 <= i < |Rows(lines)| ==> Word(Rows(lines)[i].location) && Rows(lines)[i].statements <= MAX_INT
  {
    hide Fields, Number, Prefix, Word;
    if lines != [] {
      RowsPrintable(lines[..|lines| - 1]);
    }
  }

  lemma {:induction false} AllRowsPrintable(files: seq<File>)
    ensures forall i :: 0 <= i < |AllRows(files)| ==>
      Word(AllRows(files)[i].location) && AllRows(files)[i].statements <= MAX_INT
  {
    hide Rows, Word;
    if files != [] {
      AllRowsPrintable(files[..|files| - 1]);
      var f := files[|files| - 1];
      if f != [] {
        RowsPrintable(f[1..]);
      }
    }
  }

  lemma MergedPrintable(files: seq<File>, location: string)
    requires MergeFiles(files).Ok? && location in MergeFiles(files).value
    ensures Printable(location, MergeFiles(files).value[location])
  {
    hide Word, AllRows, MergeFiles;
    MergeIsUnion(files);
    AllRowsPrintable(files);
  }

  lemma {:induction false} PrintedRows(p: Profile, keys: seq<string>)
    requires forall k :: k in keys ==> k in p && Printable(k, p[k])
    ensures Rows(PrintRows(p, keys))
            == seq(|keys|, i requires 0 <= i < |keys| => Row(keys[i], p[keys[i]].statements, p[keys[i]].covered))
    ensures forall i :: 0 <= i < |keys| ==> ParseRow(PrintRows(p, keys)[i]).Ok?
  {
    hide PrintRow, ParseRow, Printable;
    if keys != [] {
      var before, last := keys[..|keys| - 1], keys[|keys| - 1];
      PrintedRows(p, before);
      assert PrintRows(p, keys)[..|keys| - 1] == PrintRows(p, before);
      RowReads(last, p[last]);
    }
  }

  /** The printed profile reads back as the profile it prints. */
  lemma PrintedReadsBack(p: Profile, out: File)
    requires (forall k :: k in p ==> Printable(k, p[k])) && Prints(p, out)
    ensures MergeFiles([out]) == Ok(p) && WellFormed(out)
  {
    hide Printable, PrintRow, ParseRow, AddLines, Sorted, Rows, AllRows, IsUnion, Agree, WellFormed;
    var keys :| Listing(keys, p) && out == [HEADER] + PrintRows(p, keys);
    PrintedRows(p, keys);
    assert out[1..] == PrintRows(p, keys);
    var rows := Rows(out[1..]);
    PrintedForm(out);
    PrintedUnion(p, keys, rows);
    UnionAgrees(p, rows);
    MergeIsUnion([out]);
    UnionUnique(p, MergeFiles([out]).value, rows, AllRows([out]));
  }

  lemma PrintedForm(out: File)
    requires out != [] && out[0] == HEADER && forall i :: 0 <= i < |out[1..]| ==> ParseRow(out[1..][i]).Ok?
    ensures WellFormed(out) && AllRows([out]) == Rows(out[1..])
  {
    hide ParseRow, Rows;
    assert [out][..0] == [];
    assert forall i :: 0 < i < |out| ==> out[i] == out[1..][i - 1];
  }

  lemma PrintedUnion(p: Profile, keys: seq<string>, rows: seq<Row>)
    requires Listing(keys, p) && |rows| == |keys|
    requires forall i :: 0 <= i < |keys| ==> rows[i] == Row(keys[i], p[keys[i]].statements, p[keys[i]].covered)
    ensures IsUnion(p, rows)
  {
    hide Sorted;
    forall location | location in p
      ensures Says(rows, location, p[location].statements)
      ensures p[location].covered <==> Covers(rows, location)
    {
      assert location in keys;
      var i :| 0 <= i < |keys| && keys[i] == location;
      assert rows[i].location == location;
    }
  }

  /** A profile is printed in one way only. */
  lemma PrintedOnce(p: Profile, a: File, b: File)
    requires Prints(p, a) && Prints(p, b)
    ensures a == b
  {
    hide PrintRow;
    var j :| Listing(j, p) && a == [HEADER] + PrintRows(p, j);
    var k :| Listing(k, p) && b == [HEADER] + PrintRows(p, k);
    TextOrder();
    AscendingUnique(j, k, TextLE);
  }

  /** One more file. */
  function Then(merged: Result<Profile, MergeError>, f: File): Result<Profile, MergeError> {
    match merged
    case Err(e) => Err(e)
    case Ok(p) => AddFile(p, f)
  }

  lemma MergeAppend(files: seq<File>, f: File)
    ensures MergeFiles(files + [f]) == Then(MergeFiles(files), f)
  {
    hide AddFile;
    assert (files + [f])[..|files|] == files;
  }

  lemma {:induction false} SameStart(a: seq<File>, b: seq<File>, more: seq<File>)
    requires MergeFiles(a) == MergeFiles(b)
    ensures MergeFiles(a + more) == MergeFiles(b + more)
  {
    hide MergeFiles, Then;
    if more == [] {
      assert a + more == a && b + more == b;
    } else {
      var before, last := more[..|more| - 1], more[|more| - 1];
      SameStart(a, b, before);
      assert a + more == (a + before) + [last] && b + more == (b + before) + [last];
      MergeAppend(a + before, last);
      MergeAppend(b + before, last);
    }
  }

  /**
    The merge is associative and idempotent: merging the printed result of a merge with further
    files is merging everything at once, down to the error, and merging it twice changes nothing.
   */
  lemma MergeIsAJoin(files: seq<File>, out: File, more: seq<File>)
    requires MergeFiles(files).Ok? && Prints(MergeFiles(files).value, out)
    ensures MergeFiles([out] + more) == MergeFiles(files + more)
    ensures MergeFiles([out, out]) == MergeFiles(files) == MergeFiles([out])
  {
    hide AddFile, WellFormed, Printable, AllRows, Prints;
    var p := MergeFiles(files).value;
    forall k | k in p
      ensures Printable(k, p[k])
    {
      MergedPrintable(files, k);
    }
    PrintedReadsBack(p, out);
    SameStart([out], files, more);
    Twice(out);
    OrderDoesNotMatter([out], [out, out]);
  }

  lemma Twice(out: File)
    ensures forall r :: r in AllRows([out]) <==> r in AllRows([out, out])
  {
    assert [out, out][..1] == [out];
  }

  // ---------------------------------------------------------------- which lines are rows

  predicate Blank(s: string) { forall k :: 0 <= k < |s| ==> Space(s[k]) }

  /** The first field of a line, what is before it and what follows. */
  lemma FieldsSplit(s: string) returns (before: string, after: string)
    ensures Fields(s) == [] <==> Blank(s)
    ensures Fields(s) != [] ==>
      && s == before + Fields(s)[0] + after && Blank(before) && Word(Fields(s)[0]) && Fields(s)[1..] == Fields(after)
      && (after != "" ==> Space(after[0]))
    ensures |after| <= |s| && (Fields(s) != [] ==> |after| < |s|)
  {
    var m := Prefix(s, true);
    var t := s[m..];
    before, after := s[..m], "";
    if t != [] {
      var n := Prefix(t, false);
      after := t[n..];
      assert s == before + t[..n] + after;
      assert !Space(s[m]);
    } else {
      assert forall k :: 0 <= k < |s| ==> Space(s[k]);
    }
  }

  /** A signed decimal within 64 bits that is not negative, and its value; a minus sign may only stand before zero. */
  predicate Counts(s: string, n: nat) {
    && s != ""
    && var digits := if s[0] == '+' || s[0] == '-' then s[1..] else s;
    && Digits(digits) && Number(digits) == n && n <= 0x7fff_ffff_ffff_ffff && (s[0] == '-' ==> n == 0)
  }

  lemma CountsIs(s: string)
    ensures forall n: nat :: Counts(s, n) <==> Atoi(s) == Some(n)
  {
  }

  /** A line laid out as three words between blanks. */
  predicate Laid(line: string, s0: string, a: string, s1: string, b: string, s2: string, c: string, s3: string) {
    && Blank(s0) && Blank(s1) && Blank(s2) && Blank(s3) && s1 != "" && s2 != "" && Word(a) && Word(b) && Word(c)
    && line == s0 + (a + (s1 + (b + (s2 + (c + s3)))))
  }

  ghost predicate ThreeWords(line: string, a: string, b: string, c: string) {
    exists s0, s1, s2, s3 :: Laid(line, s0, a, s1, b, s2, c, s3)
  }

  lemma ThreeWordsAre(line: string, a: string, b: string, c: string)
    ensures ThreeWords(line, a, b, c) <==> Fields(line) == [a, b, c]
  {
    hide Fields, Prefix, Space, Laid;
    if Fields(line) == [a, b, c] {
      FieldsLaid(line, a, b, c);
    }
    if s0, s1, s2, s3 :| Laid(line, s0, a, s1, b, s2, c, s3) {
      LaidFields(line, s0, a, s1, b, s2, c, s3);
    }
  }

  lemma FieldsLaid(line: string, a: string, b: string, c: string)
    requires Fields(line) == [a, b, c]
    ensures ThreeWords(line, a, b, c)
  {
    hide Fields, Prefix, Space, Blank, Word;
    assert [a, b, c][1..] == [b, c] && [b, c][1..] == [c] && [c][1..] == [];
    var s0, rest := FieldsSplit(line);
    var s1, rest' := FieldsSplit(rest);
    var s2, s3 := FieldsSplit(rest');
    var _, _ := FieldsSplit(s3);
    Separated(s1, b, rest', rest);
    Separated(s2, c, s3, rest');
    assert line == s0 + (a + (s1 + (b + (s2 + (c + s3)))));
    assert Laid(line, s0, a, s1, b, s2, c, s3);
  }

  lemma LaidFields(line: string, s0: string, a: string, s1: string, b: string, s2: string, c: string, s3: string)
    requires Laid(line, s0, a, s1, b, s2, c, s3)
    ensures Fields(line) == [a, b, c]
  {
    hide Fields, Prefix, Space;
    FieldsBuilt(s2, c, s3);
    FieldsBuilt(s1, b, s2 + (c + s3));
    FieldsBuilt(s0, a, s1 + (b + (s2 + (c + s3))));
    var _, _ := FieldsSplit(s3);
  }

  lemma Separated(s: string, w: string, after: string, rest: string)
    requires Word(w) && rest == s + w + after && Space(rest[0])
    ensures s != ""
  {
  }

  /** A word between blanks and whatever follows is the first field. */
  lemma FieldsBuilt(before: string, w: string, after: string)
    requires Blank(before) && Word(w) && (after == "" || Space(after[0]))
    ensures Fields(before + (w + after)) == [w] + Fields(after)
  {
    var s := before + (w + after);
    PrefixOfBlank(before, w + after);
    assert s[|before|..] == w + after;
    PrefixOfWord(w, after);
    assert (w + after)[..|w|] == w && (w + after)[|w|..] == after;
  }

  lemma {:induction false} PrefixOfBlank(before: string, s: string)
    requires Blank(before) && s != "" && !Space(s[0])
    ensures Prefix(before + s, true) == |before|
  {
    if before != "" {
      assert (before + s)[1..] == before[1..] + s;
      PrefixOfBlank(before[1..], s);
    } else {
      assert before + s == s;
    }
  }

  /** A count within 64 bits without a sign, of which only whether it is zero is kept. */
  predicate Hits(s: string, covered: bool) {
    Digits(s) && Number(s) <= 0xffff_ffff_ffff_ffff && (covered <==> Number(s) > 0)
  }

  /** A line is a row exactly when it is three words: a location, a statement count, and a count. */
  lemma RowMeans(line: string, r: Row)
    ensures ParseRow(line) == Ok(r) <==>
      exists statements, count ::
        ThreeWords(line, r.location, statements, count) && Counts(statements, r.statements) && Hits(count, r.covered)
  {
    hide Fields, Prefix, Number, Space, ThreeWords, Atoi, Counts, Digits;
    var fields := Fields(line);
    if ParseRow(line) == Ok(r) {
      assert fields == [fields[0], fields[1], fields[2]];
      ThreeWordsAre(line, fields[0], fields[1], fields[2]);
      CountsIs(fields[1]);
      assert Hits(fields[2], r.covered);
    }
    if statements, count :|
      ThreeWords(line, r.location, statements, count) && Counts(statements, r.statements) && Hits(count, r.covered) {
      ThreeWordsAre(line, r.location, statements, count);
      CountsIs(statements);
    }
  }
}
