/**
 * The sequence loaders: a random protein generator, a FASTA file reader,
 * an NCBI Entrez loader that also saves each record and a combined file,
 * and the factory that picks one of them by key.
 *
 * The Entrez `efetch(...).read()` call is the parameter `efetch`, mapping a
 * database name and an id (or a comma-joined list of ids) to the text the
 * service returns; Biopython's `SeqIO.parse` is the parameter `parse`.
 */
module Loaders {
  import opened Wrappers
  import opened Strings
  import opened Files

  /** The 20 canonical amino-acid letters the random loader draws from. */
  const Alphabet: string := "ACDEFGHIKLMNPQRSTVWY"

  const FastaSuffix: string := ".fasta"
  const DefaultFolder: string := "sequences"
  const DefaultName: string := "seq"

  datatype DataLoader = RandomSequenceLoader | ApiSequenceLoader | FastaDataLoader

  datatype LoaderError =
    | NoHeaderToken(firstLine: string)   // IndexError from `first_line.split()[0]`
    | Io(cause: IoError)                 // the file could not be opened

  // ---------------------------------------------------------------------
  // DataLoaderFactory.get_loader

  /** A fresh loader for the three known keys; `None` (no error) for any other. */
  function GetLoader(loaderType: string): (r: Option<DataLoader>)
    ensures r == Some(RandomSequenceLoader) <==> loaderType == "random"
    ensures r == Some(ApiSequenceLoader) <==> loaderType == "api"
    ensures r == Some(FastaDataLoader) <==> loaderType == "fasta"
    ensures r.None? <==> loaderType !in {"random", "api", "fasta"}
  {
    if loaderType == "random" then Some(RandomSequenceLoader)
    else if loaderType == "api" then Some(ApiSequenceLoader)
    else if loaderType == "fasta" then Some(FastaDataLoader)
    else None
  }

  // ---------------------------------------------------------------------
  // RandomSequenceLoader.load

  /**
   * `random.choices(alphabet, k=length)` joined into one string. Each draw
   * is an unconstrained choice from the alphabet; a negative `length`
   * draws nothing.
   */
  method RandomLoad(length: int) returns (s: string)
    ensures |s| == if length < 0 then 0 else length
    ensures forall i :: 0 <= i < |s| ==> s[i] in Alphabet
  {
    s := "";
    var k := 0;
    while k < length
      invariant |s| == k && (length < 0 ==> k == 0) && (0 <= length ==> k <= length)
      invariant forall i :: 0 <= i < |s| ==> s[i] in Alphabet
    {
      assert Alphabet[0] in Alphabet;
      var symbol :| symbol in Alphabet;
      s := s + [symbol];
      k := k + 1;
    }
  }

  // ---------------------------------------------------------------------
  // FastaDataLoader.load

  /**
   * `file.readlines()`: the text cut after every line break, each line
   * keeping its break; only the last line may lack one.
   */
  function ReadLines(text: string): (lines: seq<string>)
    ensures Concat(lines) == text
    ensures text != [] ==> lines != [] && Concat(lines[1..]) == AfterFirstLine(text)
    decreases |text|
  {
    if text == [] then []
    else
      var k := |FirstLine(text)|;
      if k == |text| then [text]
      else
        var rest := ReadLines(text[k + 1..]);
        assert ([text[..k + 1]] + rest)[1..] == rest;
        assert text[..k + 1] + text[k + 1..] == text;
        [text[..k + 1]] + rest
  }

  /**
   * Each element is one line: non-empty, with a line break only as its last
   * character, and every element but the last ends in one.
   */
  predicate LineShaped(lines: seq<string>) {
    forall j :: 0 <= j < |lines| ==>
      && lines[j] != []
      && '\n' !in lines[j][..|lines[j]| - 1]
      && (j < |lines| - 1 ==> lines[j][|lines[j]| - 1] == '\n')
  }

  lemma LineShapedCons(first: string, rest: seq<string>)
    requires first != [] && first[|first| - 1] == '\n' && '\n' !in first[..|first| - 1]
    requires LineShaped(rest)
    ensures LineShaped([first] + rest)
  {
    var lines := [first] + rest;
    forall j | 1 <= j < |lines|
      ensures lines[j] == rest[j - 1]
    {
    }
  }

  /** `readlines()` cuts the text into lines and nothing else. */
  lemma {:induction false} ReadLinesAreLines(text: string)
    ensures LineShaped(ReadLines(text))
  {
    if text != [] {
      var line := FirstLine(text);
      var k := |line|;
      if k == |text| {
        assert line == text;
        assert ReadLines(text) == [text];
      } else {
        var first := text[..k + 1];
        assert first[..k] == line;
        ReadLinesAreLines(text[k + 1..]);
        LineShapedCons(first, ReadLines(text[k + 1..]));
      }
    }
  }

  /** `"".join(lines[1:]).replace("\n", "")`. */
  function FastaBody(lines: seq<string>): (body: string)
    ensures '\n' !in body
    ensures |lines| <= 1 ==> body == ""
  {
    Remove(Concat(if lines == [] then [] else lines[1..]), '\n')
  }

  /** Each line with its breaks removed. */
  function StripEach(lines: seq<string>): (stripped: seq<string>)
    ensures |stripped| == |lines|
  {
    seq(|lines|, j requires 0 <= j < |lines| => Remove(lines[j], '\n'))
  }

  lemma {:induction false} RemoveConcat(parts: seq<string>)
    ensures Remove(Concat(parts), '\n') == Concat(StripEach(parts))
  {
    if parts != [] {
      RemoveAppend(parts[0], Concat(parts[1..]), '\n');
      RemoveConcat(parts[1..]);
      assert StripEach(parts)[1..] == StripEach(parts[1..]);
    }
  }

  /** The body is the lines after the header, each stripped of its breaks, in order. */
  lemma FastaBodyLineByLine(lines: seq<string>)
    requires lines != []
    ensures FastaBody(lines) == Concat(StripEach(lines)[1..])
  {
    RemoveConcat(lines[1..]);
    assert StripEach(lines)[1..] == StripEach(lines[1..]);
  }

  lemma FastaBodyExample()
    ensures FastaBody([">seq1\n", "ACDE\n", "FGHI\n"]) == "ACDEFGHI"
  {
    var lines := [">seq1\n", "ACDE\n", "FGHI\n"];
    FastaBodyLineByLine(lines);
    assert lines[1] == "ACDE" + "\n" && lines[2] == "FGHI" + "\n";
    StripRow("ACDE");
    StripRow("FGHI");
    assert StripEach(lines)[1..] == ["ACDE", "FGHI"];
    assert Concat(["FGHI"]) == "FGHI" + Concat([]);
  }

  lemma StripRow(row: string)
    requires '\n' !in row
    ensures Remove(row + "\n", '\n') == row
  {
    RemoveAppend(row, "\n", '\n');
    RemoveAbsent(row, '\n');
  }

  /** Reading a file's text: the body is everything after the first line, breaks removed. */
  lemma FastaBodyOfText(text: string)
    ensures FastaBody(ReadLines(text)) == Remove(AfterFirstLine(text), '\n')
  {
  }

  /** Each row followed by a line break. */
  function Terminated(rows: seq<string>): (lines: seq<string>)
    ensures |lines| == |rows|
  {
    seq(|rows|, j requires 0 <= j < |rows| => rows[j] + "\n")
  }

  lemma {:induction false} RemoveTerminated(rows: seq<string>)
    requires forall j :: 0 <= j < |rows| ==> '\n' !in rows[j]
    ensures Remove(Concat(Terminated(rows)), '\n') == Concat(rows)
  {
    if rows != [] {
      var tail := Concat(Terminated(rows[1..]));
      assert Terminated(rows)[1..] == Terminated(rows[1..]);
      assert Concat(Terminated(rows)) == (rows[0] + "\n") + tail;
      RemoveAppend(rows[0] + "\n", tail, '\n');
      StripRow(rows[0]);
      RemoveTerminated(rows[1..]);
    }
  }

  /**
   * A FASTA text written as a header line and line-terminated residue rows
   * reads back as the residues, in order, with nothing else.
   */
  lemma FastaRoundTrip(header: string, rows: seq<string>)
    requires '\n' !in header
    requires forall j :: 0 <= j < |rows| ==> '\n' !in rows[j]
    ensures FastaBody(ReadLines(header + "\n" + Concat(Terminated(rows)))) == Concat(rows)
  {
    var text := header + "\n" + Concat(Terminated(rows));
    FirstLineUnique(text, header);
    assert AfterFirstLine(text) == Concat(Terminated(rows));
    FastaBodyOfText(text);
    RemoveTerminated(rows);
  }

  /** `FastaDataLoader.load(filename)`. */
  method FastaLoad(fs: FileSystem, filename: string) returns (r: Result<string, LoaderError>)
    ensures filename in fs.files ==> r == Success(FastaBody(ReadLines(fs.files[filename])))
    ensures filename !in fs.files ==> r == Failure(Io(FileNotFound(filename)))
  {
    var text := fs.Read(filename);
    if text.Failure? {
      return Failure(Io(text.error));
    }
    var lines := ReadLines(text.value);
    r := Success(FastaBody(lines));
  }

  // ---------------------------------------------------------------------
  // ApiSequenceLoader.get_sequences_by_id: the file name of one record

  /**
   * `content.split("\n")[0].split()[0]`, computed in one pass: skip the
   * whitespace that opens the first line, then take the word that follows.
   * `None` when the first line holds no word.
   */
  function HeaderToken(content: string): (t: Option<string>)
    ensures t.Some? ==> t.value != []
  {
    if content == [] || content[0] == '\n' then None
    else if IsSpace(content[0]) then HeaderToken(content[1..])
    else Some(content[..WordLength(content)])
  }

  /** The one-pass header token is the first token of the first line. */
  lemma {:induction false} HeaderTokenIsFirstTokenOfFirstLine(content: string)
    ensures HeaderToken(content) == FirstToken(FirstLine(content))
  {
    if content == [] || content[0] == '\n' {
    } else if IsSpace(content[0]) {
      HeaderTokenIsFirstTokenOfFirstLine(content[1..]);
      assert FirstLine(content)[1..] == FirstLine(content[1..]);
    } else {
      var line := FirstLine(content);
      var n := WordLength(content);
      assert IsSpace('\n');
      assert n <= |line|;
      assert line[..n] == content[..n];
      WordLengthOfPrefix(content, line, n);
    }
  }

  lemma WordLengthOfPrefix(s: string, p: string, n: nat)
    requires p <= s && n == WordLength(s) && n <= |p|
    ensures WordLength(p) == n
  {
  }

  /**
   * The file name for a fetched record: the first whitespace token of its
   * first line, minus its first character, with every `.` made `_`, plus
   * `.fasta`. No token on the first line is the IndexError.
   */
  function DeriveFilename(content: string): (r: Result<string, LoaderError>)
    ensures r.Failure? ==> r.error == NoHeaderToken(FirstLine(content))
  {
    match HeaderToken(content)
    case None => Failure(NoHeaderToken(FirstLine(content)))
    case Some(token) => Success(Replace(token[1..], '.', '_') + FastaSuffix)
  }

  /** A derived name is a `.fasta` name whose stem holds no dot. */
  lemma DerivedNameShape(content: string)
    ensures var r := DeriveFilename(content);
            r.Success? ==> EndsWith(r.value, FastaSuffix) && '.' !in r.value[..|r.value| - |FastaSuffix|]
  {
  }

  /** Derivation fails exactly when the first line is empty or all whitespace. */
  lemma FilenameFailsIffBlankHeader(content: string)
    ensures DeriveFilename(content).Failure? <==>
            forall i :: 0 <= i < |FirstLine(content)| ==> IsSpace(FirstLine(content)[i])
    ensures DeriveFilename(content).Failure? ==>
            DeriveFilename(content).error == NoHeaderToken(FirstLine(content))
  {
    HeaderTokenIsFirstTokenOfFirstLine(content);
  }

  /** Only the header line decides the file name; the residues do not. */
  lemma FilenameFromHeaderOnly(header: string, rest: string)
    requires '\n' !in header
    ensures DeriveFilename(header + "\n" + rest) == DeriveFilename(header)
  {
    FirstLineUnique(header + "\n" + rest, header);
    FirstLineUnique(header, header);
    HeaderTokenIsFirstTokenOfFirstLine(header + "\n" + rest);
    HeaderTokenIsFirstTokenOfFirstLine(header);
  }

  /**
   * For a header `>ACCESSION description`: the marker is dropped whatever it
   * is, and the accession survives with its dots made underscores.
   */
  lemma FilenameOfHeader(marker: char, accession: string, description: string, rest: string)
    requires !IsSpace(marker)
    requires forall c :: c in accession ==> !IsSpace(c)
    requires description == [] || IsSpace(description[0])
    requires '\n' !in description
    ensures DeriveFilename([marker] + accession + description + "\n" + rest)
         == Success(Replace(accession, '.', '_') + FastaSuffix)
  {
    var token := [marker] + accession;
    var header := token + description;
    FirstTokenOf(token, description);
    assert '\n' !in header;
    FirstLineUnique(header, header);
    FilenameFromHeaderOnly(header, rest);
    assert token[1..] == accession;
  }

  // ---------------------------------------------------------------------
  // ApiSequenceLoader.get_sequences_by_id: the write loop and the combined file

  /** The texts fetched for `ids`, one per id, in order. */
  function Fetched(ids: seq<string>, db: string, efetch: (string, string) -> string): (contents: seq<string>)
    ensures |contents| == |ids|
    ensures forall j :: 0 <= j < |ids| ==> contents[j] == efetch(db, ids[j])
  {
    seq(|ids|, j requires 0 <= j < |ids| => efetch(db, ids[j]))
  }

  /** The index of the first record whose file name cannot be derived, or |contents|. */
  function FirstFailure(contents: seq<string>): (k: nat)
    ensures k <= |contents|
    ensures forall j :: 0 <= j < k ==> DeriveFilename(contents[j]).Success?
    ensures k < |contents| ==> DeriveFilename(contents[k]).Failure?
    decreases |contents|
  {
    if contents == [] || DeriveFilename(contents[0]).Failure? then 0
    else 1 + FirstFailure(contents[1..])
  }

  /** The routes of the first `k` records: `os.path.join(folder, filename)`. */
  function Routes(folder: string, contents: seq<string>, k: nat): (routes: seq<string>)
    requires k <= |contents|
    requires forall j :: 0 <= j < k ==> DeriveFilename(contents[j]).Success?
    ensures |routes| == k
  {
    if k == 0 then []
    else Routes(folder, contents, k - 1) + [PathJoin(folder, DeriveFilename(contents[k - 1]).value)]
  }

  /** Route j is the folder joined with record j's derived file name. */
  lemma {:induction false} RouteAt(folder: string, contents: seq<string>, k: nat, j: nat)
    requires k <= |contents|
    requires forall m :: 0 <= m < k ==> DeriveFilename(contents[m]).Success?
    requires j < k
    ensures Routes(folder, contents, k)[j] == PathJoin(folder, DeriveFilename(contents[j]).value)
  {
    if j < k - 1 {
      RouteAt(folder, contents, k - 1, j);
    }
  }

  /** The files after writing `contents[j]` to `routes[j]` for each j in turn. */
  function Persist(files: map<string, string>, routes: seq<string>, contents: seq<string>): (after: map<string, string>)
    requires |routes| == |contents|
    ensures files.Keys <= after.Keys
    ensures routes != [] ==> routes[|routes| - 1] in after && after[routes[|routes| - 1]] == contents[|contents| - 1]
    decreases |routes|
  {
    if routes == [] then files
    else
      var n := |routes| - 1;
      assert routes == routes[..n] + [routes[n]];
      Persist(files, routes[..n], contents[..n])[routes[n] := contents[n]]
  }

  /** Every route written is a file afterwards. */
  lemma {:induction false} PersistHasRoutes(files: map<string, string>, routes: seq<string>, contents: seq<string>)
    requires |routes| == |contents|
    ensures forall j :: 0 <= j < |routes| ==> routes[j] in Persist(files, routes, contents)
  {
    if routes != [] {
      var n := |routes| - 1;
      PersistHasRoutes(files, routes[..n], contents[..n]);
    }
  }

  lemma PersistStep(files: map<string, string>, routes: seq<string>, contents: seq<string>, route: string, content: string)
    requires |routes| == |contents|
    ensures Persist(files, routes + [route], contents + [content]) == Persist(files, routes, contents)[route := content]
  {
  }

  lemma TakeOneMore(s: seq<string>, i: nat)
    requires i < |s|
    ensures s[..i + 1] == s[..i] + [s[i]]
  {
  }

  /** The index of the last write to the route written at `j`. */
  function LastWrite(routes: seq<string>, j: nat): (k: nat)
    requires j < |routes|
    ensures j <= k < |routes| && routes[k] == routes[j]
    ensures forall m :: k < m < |routes| ==> routes[m] != routes[j]
    decreases |routes|
  {
    var n := |routes| - 1;
    if routes[n] == routes[j] then n else LastWrite(routes[..n], j)
  }

  /** Where the combined file goes: always under `sequences/`, whatever the folder. */
  function CombinedPath(name: string): (path: string)
    ensures "sequences/" <= path && EndsWith(path, FastaSuffix)
  {
    "sequences/combined_" + name + ".fasta"
  }

  /** The contents of `routes`, each read from `files`. */
  function ReadBack(files: map<string, string>, routes: seq<string>): (texts: seq<string>)
    requires forall j :: 0 <= j < |routes| ==> routes[j] in files
    ensures |texts| == |routes|
  {
    seq(|routes|, j requires 0 <= j < |routes| => files[routes[j]])
  }

  /**
   * Opening the combined file for writing empties it; it then receives the
   * routes' contents, each read back while it is open.
   */
  function StoreCombined(files: map<string, string>, routes: seq<string>, name: string): (after: map<string, string>)
    requires forall j :: 0 <= j < |routes| ==> routes[j] in files
    ensures after.Keys == files.Keys + {CombinedPath(name)}
  {
    var path := CombinedPath(name);
    var truncated := files[path := ""];
    truncated[path := Concat(ReadBack(truncated, routes))]
  }

  /** What get_sequences_by_id returns (or raises) and the files it leaves behind. */
  datatype SaveOutcome = SaveOutcome(result: Result<seq<string>, LoaderError>, files: map<string, string>)

  function GetSequencesOutcome(files: map<string, string>, folder: string, name: string, contents: seq<string>): (o: SaveOutcome)
    ensures o.result.Success? ==> |o.result.value| == |contents|
    ensures o.result.Failure? ==> o.result.error.NoHeaderToken?
  {
    var k := FirstFailure(contents);
    var routes := Routes(folder, contents, k);
    var written := Persist(files, routes, contents[..k]);
    if k < |contents| then SaveOutcome(Failure(DeriveFilename(contents[k]).error), written)
    else
      PersistHasRoutes(files, routes, contents[..k]);
      SaveOutcome(Success(routes), StoreCombined(written, routes, name))
  }

  /** Writing in turn: a route ends up holding the content of its last write. */
  lemma {:induction false} PersistLastWins(files: map<string, string>, routes: seq<string>, contents: seq<string>, j: nat)
    requires |routes| == |contents| && j < |routes|
    ensures routes[j] in Persist(files, routes, contents)
    ensures Persist(files, routes, contents)[routes[j]] == contents[LastWrite(routes, j)]
  {
    var n := |routes| - 1;
    if routes[n] != routes[j] {
      PersistLastWins(files, routes[..n], contents[..n], j);
    }
  }

  /** Writing in turn leaves every path that is not a route as it was. */
  lemma {:induction false} PersistKeeps(files: map<string, string>, routes: seq<string>, contents: seq<string>, p: string)
    requires |routes| == |contents|
    requires p !in routes
    ensures p in Persist(files, routes, contents) <==> p in files
    ensures p in files ==> Persist(files, routes, contents)[p] == files[p]
  {
    if routes != [] {
      var n := |routes| - 1;
      assert routes[n] in routes;
      assert forall m :: 0 <= m < n ==> routes[..n][m] == routes[m];
      PersistKeeps(files, routes[..n], contents[..n], p);
    }
  }

  /** What each route holds once every write is done: the content of its last write. */
  function Survivors(routes: seq<string>, contents: seq<string>): (texts: seq<string>)
    requires |routes| == |contents|
    ensures |texts| == |routes|
  {
    seq(|routes|, j requires 0 <= j < |routes| => contents[LastWrite(routes, j)])
  }

  /** The combined file receives each route's surviving content, in route order. */
  lemma CombinedHoldsSurvivors(files: map<string, string>, routes: seq<string>, contents: seq<string>, name: string)
    requires |routes| == |contents|
    requires CombinedPath(name) !in routes
    requires forall j :: 0 <= j < |routes| ==> routes[j] in Persist(files, routes, contents)
    ensures StoreCombined(Persist(files, routes, contents), routes, name)[CombinedPath(name)]
         == Concat(Survivors(routes, contents))
  {
    var written := Persist(files, routes, contents);
    var truncated := written[CombinedPath(name) := ""];
    forall j | 0 <= j < |routes|
      ensures ReadBack(truncated, routes)[j] == Survivors(routes, contents)[j]
    {
      PersistLastWins(files, routes, contents, j);
    }
    assert ReadBack(truncated, routes) == Survivors(routes, contents);
  }

  /**
   * get_sequences_by_id returns normally exactly when every fetched record
   * has a file name, and then returns one route per id, in order: the
   * folder joined with that record's file name.
   */
  lemma GetSequencesSucceedsIff(files: map<string, string>, folder: string, name: string, contents: seq<string>)
    ensures GetSequencesOutcome(files, folder, name, contents).result.Success? <==>
            forall j :: 0 <= j < |contents| ==> DeriveFilename(contents[j]).Success?
    ensures var o := GetSequencesOutcome(files, folder, name, contents);
            o.result.Success? ==>
              && |o.result.value| == |contents|
              && forall j :: 0 <= j < |contents| ==> o.result.value[j] == PathJoin(folder, DeriveFilename(contents[j]).value)
  {
    var k := FirstFailure(contents);
    if k == |contents| {
      forall j | 0 <= j < |contents|
        ensures Routes(folder, contents, k)[j] == PathJoin(folder, DeriveFilename(contents[j]).value)
      {
        RouteAt(folder, contents, k, j);
      }
    }
  }

  /**
   * When a record has no header token, the IndexError names its first line;
   * the records before it stay written, nothing else changes, and no
   * combined file is written.
   */
  lemma GetSequencesFailure(files: map<string, string>, folder: string, name: string, contents: seq<string>, p: string)
    ensures var o := GetSequencesOutcome(files, folder, name, contents);
            var k := FirstFailure(contents);
            o.result.Failure? ==>
              && k < |contents|
              && o.result.error == NoHeaderToken(FirstLine(contents[k]))
              && (forall j :: 0 <= j < k ==>
                    && Routes(folder, contents, k)[j] in o.files
                    && o.files[Routes(folder, contents, k)[j]] == contents[LastWrite(Routes(folder, contents, k), j)])
              && (p !in Routes(folder, contents, k) ==> (p in o.files <==> p in files) && (p in files ==> o.files[p] == files[p]))
  {
    var k := FirstFailure(contents);
    if k < |contents| {
      var routes := Routes(folder, contents, k);
      FilenameFailsIffBlankHeader(contents[k]);
      forall j | 0 <= j < k
        ensures routes[j] in Persist(files, routes, contents[..k])
        ensures Persist(files, routes, contents[..k])[routes[j]] == contents[LastWrite(routes, j)]
      {
        PersistLastWins(files, routes, contents[..k], j);
      }
      if p !in routes {
        PersistKeeps(files, routes, contents[..k], p);
      }
    }
  }

  /** When every record has a file name, the outcome is the routes and the combined file over every write. */
  lemma SuccessOutcome(files: map<string, string>, folder: string, name: string, contents: seq<string>)
    requires FirstFailure(contents) == |contents|
    ensures var routes := Routes(folder, contents, |contents|);
            && (forall j :: 0 <= j < |routes| ==> routes[j] in Persist(files, routes, contents))
            && GetSequencesOutcome(files, folder, name, contents)
               == SaveOutcome(Success(routes), StoreCombined(Persist(files, routes, contents), routes, name))
  {
    assert contents[..|contents|] == contents;
    PersistHasRoutes(files, Routes(folder, contents, |contents|), contents);
  }

  /** After a normal return, each route holds the content of its last write. */
  lemma GetSequencesRouteContents(files: map<string, string>, folder: string, name: string, contents: seq<string>)
    ensures var o := GetSequencesOutcome(files, folder, name, contents);
            o.result.Success? ==>
              var routes := o.result.value;
              && |routes| == |contents|
              && forall j :: 0 <= j < |routes| && routes[j] != CombinedPath(name) ==>
                   routes[j] in o.files && o.files[routes[j]] == contents[LastWrite(routes, j)]
  {
    if FirstFailure(contents) == |contents| {
      var routes := Routes(folder, contents, |contents|);
      SuccessOutcome(files, folder, name, contents);
      var written := Persist(files, routes, contents);
      forall j | 0 <= j < |routes| && routes[j] != CombinedPath(name)
        ensures StoreCombined(written, routes, name)[routes[j]] == contents[LastWrite(routes, j)]
      {
        PersistLastWins(files, routes, contents, j);
      }
    }
  }

  /**
   * After a normal return, the combined file holds the surviving content of
   * every route, in route order (unless a record's own route is the
   * combined path).
   */
  lemma GetSequencesCombined(files: map<string, string>, folder: string, name: string, contents: seq<string>)
    ensures var o := GetSequencesOutcome(files, folder, name, contents);
            o.result.Success? ==>
              && |o.result.value| == |contents|
              && (CombinedPath(name) !in o.result.value ==>
                    o.files[CombinedPath(name)] == Concat(Survivors(o.result.value, contents)))
  {
    var k := FirstFailure(contents);
    if k == |contents| {
      var routes := Routes(folder, contents, k);
      assert contents[..k] == contents;
      if CombinedPath(name) !in routes {
        PersistHasRoutes(files, routes, contents);
        CombinedHoldsSurvivors(files, routes, contents, name);
      }
    }
  }

  /** After a normal return, a path that is neither a route nor the combined file is as it was. */
  lemma GetSequencesKeepsOthers(files: map<string, string>, folder: string, name: string, contents: seq<string>, p: string)
    ensures var o := GetSequencesOutcome(files, folder, name, contents);
            o.result.Success? && p !in o.result.value && p != CombinedPath(name) ==>
              && (p in o.files <==> p in files)
              && (p in files ==> o.files[p] == files[p])
  {
    var k := FirstFailure(contents);
    if k == |contents| {
      var routes := Routes(folder, contents, k);
      assert contents[..k] == contents;
      if p !in routes {
        PersistKeeps(files, routes, contents, p);
      }
    }
  }

  /**
   * A saved record that no later record overwrites, loaded back with the
   * FASTA loader, gives the record's residues: everything after its header
   * line with the line breaks removed.
   */
  lemma SavedRecordLoadsBack(files: map<string, string>, folder: string, name: string, contents: seq<string>, j: nat)
    requires forall m :: 0 <= m < |contents| ==> DeriveFilename(contents[m]).Success?
    requires j < |contents|
    ensures var o := GetSequencesOutcome(files, folder, name, contents);
            && o.result.Success? && |o.result.value| == |contents|
            && var route := o.result.value[j];
               route != CombinedPath(name) && LastWrite(o.result.value, j) == j ==>
                 route in o.files && FastaBody(ReadLines(o.files[route])) == Remove(AfterFirstLine(contents[j]), '\n')
  {
    GetSequencesSucceedsIff(files, folder, name, contents);
    GetSequencesRouteContents(files, folder, name, contents);
    FastaBodyOfText(contents[j]);
  }

  /**
   * Two records with the same accession share one file, which keeps the
   * second; the combined file then holds the second record twice.
   */
  lemma DuplicateAccessionCombinedTwice(files: map<string, string>, folder: string, name: string, first: string, second: string)
    requires DeriveFilename(first).Success? && DeriveFilename(second) == DeriveFilename(first)
    requires PathJoin(folder, DeriveFilename(first).value) != CombinedPath(name)
    ensures var o := GetSequencesOutcome(files, folder, name, [first, second]);
            var route := PathJoin(folder, DeriveFilename(first).value);
            && o.result == Success([route, route])
            && o.files[route] == second
            && o.files[CombinedPath(name)] == second + second
  {
    var contents := [first, second];
    GetSequencesSucceedsIff(files, folder, name, contents);
    GetSequencesRouteContents(files, folder, name, contents);
    GetSequencesCombined(files, folder, name, contents);
    var route := PathJoin(folder, DeriveFilename(first).value);
    var routes := [route, route];
    assert GetSequencesOutcome(files, folder, name, contents).result.value == routes;
    assert LastWrite(routes, 0) == 1 && LastWrite(routes, 1) == 1;
    assert Survivors(routes, contents) == [second, second];
    ConcatAppend([second], [second]);
  }

  /** `ApiSequenceLoader.get_sequences_by_id(ids, db, folder, name)`. */
  method GetSequencesById(fs: FileSystem, ids: seq<string>, db: string, efetch: (string, string) -> string,
                          folder: string, name: string)
    returns (r: Result<seq<string>, LoaderError>)
    modifies fs
    ensures SaveOutcome(r, fs.files) == GetSequencesOutcome(old(fs.files), folder, name, Fetched(ids, db, efetch))
  {
    ghost var contents := Fetched(ids, db, efetch);
    ghost var initial := fs.files;
    var routes, stop := SaveRecords(fs, ids, db, efetch, folder);
    if stop.Some? {
      return Failure(stop.value);
    }
    assert |routes| == |contents| && contents[..|contents|] == contents;
    PersistHasRoutes(initial, routes, contents);
    WriteCombined(fs, routes, name);
    r := Success(routes);
  }

  /**
   * The loop of `get_sequences_by_id`: fetch each id in turn and write it
   * to its route, stopping at the first record whose file name cannot be
   * derived (the exception raised).
   */
  method SaveRecords(fs: FileSystem, ids: seq<string>, db: string, efetch: (string, string) -> string, folder: string)
    returns (routes: seq<string>, stop: Option<LoaderError>)
    modifies fs
    ensures var contents := Fetched(ids, db, efetch);
            var k := FirstFailure(contents);
            && routes == Routes(folder, contents, k)
            && fs.files == Persist(old(fs.files), routes, contents[..k])
            && (stop.Some? <==> k < |contents|)
            && (stop.Some? ==> stop.value == DeriveFilename(contents[k]).error)
  {
    ghost var contents := Fetched(ids, db, efetch);
    ghost var initial := fs.files;
    routes := [];
    var i := 0;
    while i < |ids|
      invariant i <= FirstFailure(contents)
      invariant routes == Routes(folder, contents, i)
      invariant fs.files == Persist(initial, routes, contents[..i])
    {
      var content := efetch(db, ids[i]);
      var filename := DeriveFilename(content);
      if filename.Failure? {
        assert i == FirstFailure(contents);
        return routes, Some(filename.error);
      }
      assert content == contents[i] && i != FirstFailure(contents);
      var route := PathJoin(folder, filename.value);
      fs.Write(route, content);
      PersistStep(initial, routes, contents[..i], route, content);
      TakeOneMore(contents, i);
      routes := routes + [route];
      i := i + 1;
    }
    assert contents[..i] == contents;
    stop := None;
  }

  /** The tail of `get_sequences_by_id`: the combined file, built from reading every route back in order. */
  method WriteCombined(fs: FileSystem, routes: seq<string>, name: string)
    requires forall j :: 0 <= j < |routes| ==> routes[j] in fs.files
    modifies fs
    ensures fs.files == StoreCombined(old(fs.files), routes, name)
  {
    var path := CombinedPath(name);
    fs.Write(path, "");
    ghost var truncated := fs.files;
    var combined := "";
    var j := 0;
    while j < |routes|
      invariant j <= |routes|
      invariant fs.files == truncated
      invariant combined == Concat(ReadBack(truncated, routes[..j]))
    {
      var text := fs.Read(routes[j]);
      assert ReadBack(truncated, routes[..j + 1]) == ReadBack(truncated, routes[..j]) + [text.value];
      ConcatAppend(ReadBack(truncated, routes[..j]), [text.value]);
      combined := combined + text.value;
      j := j + 1;
    }
    assert routes[..j] == routes;
    fs.Write(path, combined);
  }

  /** `ApiSequenceLoader.load(id_list, type)`: one batched fetch and parse, then the per-id save. */
  method ApiLoad<R>(fs: FileSystem, idList: seq<string>, db: string, efetch: (string, string) -> string,
                    parse: string -> R)
    returns (r: Result<R, LoaderError>)
    modifies fs
    ensures var o := GetSequencesOutcome(old(fs.files), DefaultFolder, DefaultName, Fetched(idList, db, efetch));
      && fs.files == o.files
      && (o.result.Success? ==> r == Success(parse(efetch(db, JoinWith(",", idList)))))
      && (o.result.Failure? ==> r == Failure(o.result.error))
  {
    var sequences := parse(efetch(db, JoinWith(",", idList)));
    var routes := GetSequencesById(fs, idList, db, efetch, DefaultFolder, DefaultName);
    if routes.Failure? {
      return Failure(routes.error);
    }
    r := Success(sequences);
  }
}
