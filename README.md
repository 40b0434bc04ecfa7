# Sequence loaders and PDB download, modelled in Dafny

This project models the data-loading core of a small protein-analysis toolkit:

- **`processing/loaders.py`** holds four parts.
  - A random protein-sequence generator.
  - A FASTA file reader.
  - An NCBI Entrez loader. It fetches records, saves each one as
    `<folder>/<accession>.fasta` and writes a combined file
    `sequences/combined_<name>.fasta`.
  - The factory that picks a loader by key.
- **`functions.py`** provides `download_pdb`. It fetches a structure from the
  RCSB Protein Data Bank and saves it as a `.pdb` file.

Modules:

- `Wrappers`: `Option` and `Result`.
- `Strings`: the parts of Python's `str` the code relies on. These are
  `split("\n")[0]`, `split()[0]`, one-character `replace`, `"".join`,
  `",".join`, `endswith`, and ASCII `upper`/`lower`. `IsSpace` lists the
  code points `str.split()` treats as whitespace.
- `Files`: POSIX `os.path.join` for two arguments, and a `FileSystem` class.
  The class holds a map from path to text. Its `Write` is `open(path, "w")`
  followed by `write`, and its `Read` is `open(path).read()`.
- `Loaders`: `processing/loaders.py`.
- `Functions`: `functions.py`.

How the side effects are modelled:

- The loops that write files are methods on a `FileSystem`.
  - Each is proved against a function of the old file map.
    `GetSequencesOutcome` gives the returned routes (or the exception raised)
    and the files left behind.
  - The properties of `get_sequences_by_id` are lemmas about that function.
    They cover when it succeeds, what each file holds, the combined file,
    what stays untouched, and the round trip through the FASTA loader.
- Calls out to other systems are parameters.
  - Entrez `efetch(...).read()` is `efetch: (db, id) -> text`.
  - Biopython's `SeqIO.parse` is `parse: text -> R`.
  - `requests.get` is `get: url -> HttpResponse`.
- `random.choices` is a nondeterministic choice of each symbol from the alphabet.

Behaviour of the code worth knowing, which the model keeps:

- **Negative lengths.** `RandomSequenceLoader.load` with a negative length
  gives an empty sequence: `random.choices` with a negative `k` draws
  nothing.
- **Header marker.** The header's marker character is never checked.
  `split()[0][1:]` drops the first character of the first token, whatever it
  is. A first line without a token raises `IndexError`. No other malformed
  header fails.
- **Combined file.** The combined file is not the fetched texts joined
  together. It is built by reading every route back after all records are
  written. Two records with the same accession share one file, so the
  combined file holds the second record twice
  (`DuplicateAccessionCombinedTwice`). The combined file always goes under
  `sequences/`, whatever `folder` is.
- **Absolute tokens.** A header token whose remainder starts with `/`
  replaces the folder. That is how `os.path.join` treats an absolute second
  argument.

## Model

| member | source | states |
|---|---|---|
| Strings.FirstLine | processing/loaders.py:47 | `content.split("\n")[0]`: the longest prefix without a line break, followed in the text by a break or the end |
| Strings.FirstToken | processing/loaders.py:48 | `line.split()[0]`: `None` (the IndexError) exactly when the line is all whitespace; otherwise a non-empty token, the word that follows the leading whitespace |
| Strings.FirstTokenOf | processing/loaders.py:48 | a line opening with a whitespace-free token, then whitespace or nothing, splits to that token first |
| Strings.Replace | processing/loaders.py:49 | `replace(".", "_")` keeps the length and swaps exactly the matching characters |
| Strings.Remove | processing/loaders.py:75 | `replace("\n", "")` leaves no line break |
| Strings.RemoveKeepsOthers | processing/loaders.py:75 | removing line breaks keeps every other character, each as often as before |
| Strings.RemoveAppend | processing/loaders.py:75 | removing line breaks distributes over concatenation |
| Strings.IsSpace | processing/loaders.py:48 | the separators of `split()`: space, tab, line feed and carriage return are among them; no letter, digit, `>`, `.` or `_` is |
| Strings.Concat | processing/loaders.py:75 | `"".join(parts)`: empty for no parts, the part itself for one part |
| Strings.ConcatAppend | processing/loaders.py:58-61 | joining two lists of parts is joining each and concatenating, so the parts appear in order |
| Strings.EndsWith | functions.py:12 | `route.endswith(".pdb")`: a string that ends with the suffix is something followed by the suffix |
| Strings.EndsWithAppend | functions.py:12 | anything followed by the suffix ends with it |
| Strings.Upper | functions.py:5 | ASCII upper-casing, character by character, length kept |
| Strings.Lower | functions.py:4 | ASCII lower-casing, character by character, length kept |
| Strings.UpperOfLower | functions.py:4-5 | lower-casing before upper-casing gives the same string as upper-casing alone |
| Files.PathJoin | processing/loaders.py:50 | `os.path.join(folder, filename)`: an absolute name wins; otherwise, for a non-empty folder without a trailing `/`, the folder, one `/`, then the name |
| Files.PathJoinEndsWithName | processing/loaders.py:50 | a joined path ends with the file name |
| Files.FileSystem.Write | processing/loaders.py:52-53 | writing replaces the path's contents and changes nothing else |
| Files.FileSystem.Read | processing/loaders.py:72-73 | reading returns the path's contents, or the file-not-found error when it does not exist |
| Loaders.GetLoader | processing/loaders.py:80-88 | `"random"`, `"api"` and `"fasta"` give their loaders, each exactly for its key; any other key gives nothing |
| Loaders.RandomLoad | processing/loaders.py:21-22 | a sequence of exactly `length` symbols (none for a negative length), each drawn from the 20 amino-acid letters |
| Loaders.ReadLines | processing/loaders.py:73 | `readlines()`: the lines concatenate back to the text; after the first line they concatenate to the text after the first break |
| Loaders.ReadLinesAreLines | processing/loaders.py:73 | `readlines()` cuts only at line breaks: every line is non-empty, holds a break only as its last character, and every line but the last ends in one |
| Loaders.FastaBody | processing/loaders.py:75 | the body joined from lines after the first holds no line break, and is empty for a header alone |
| Loaders.FastaBodyLineByLine | processing/loaders.py:75 | the body is each line after the first with its break removed, concatenated in order |
| Loaders.FastaBodyOfText | processing/loaders.py:70-75 | loading a file gives everything after its first line with the line breaks removed |
| Loaders.FastaBodyExample | processing/loaders.py:70-75 | `>seq1`, `ACDE`, `FGHI` on three lines loads as `ACDEFGHI` |
| Loaders.RemoveTerminated | processing/loaders.py:75 | rows each followed by a line break join back to the rows once the breaks are removed |
| Loaders.FastaRoundTrip | processing/loaders.py:70-75 | a header line followed by line-terminated residue rows loads as the rows concatenated, nothing else |
| Loaders.FastaLoad | processing/loaders.py:70-75 | an existing file loads as the body of its lines; a missing file raises the file-not-found error |
| Loaders.HeaderToken | processing/loaders.py:47-48 | the first token of the first line is non-empty when it exists |
| Loaders.HeaderTokenIsFirstTokenOfFirstLine | processing/loaders.py:47-48 | the one-pass token equals `split("\n")[0].split()[0]` on every text |
| Loaders.DeriveFilename | processing/loaders.py:47-49 | the file name of one record; when the first line holds no token, the IndexError carries that first line |
| Loaders.DerivedNameShape | processing/loaders.py:48-49 | a derived file name ends in `.fasta` and its stem holds no `.` |
| Loaders.FilenameFailsIffBlankHeader | processing/loaders.py:47-48 | deriving a name fails exactly when the first line is empty or all whitespace, and the error carries that line |
| Loaders.FilenameFromHeaderOnly | processing/loaders.py:47-49 | only the header line decides the file name; the residues after it do not |
| Loaders.FilenameOfHeader | processing/loaders.py:47-49 | a header `>ACCESSION description` gives `ACCESSION` with dots made underscores, plus `.fasta`, whatever the marker character |
| Loaders.FirstFailure | processing/loaders.py:42-49 | the records before it all have file names; the record at it (if any) has none |
| Loaders.Routes | processing/loaders.py:50-56 | the routes of the first `k` records: exactly `k` of them |
| Loaders.RouteAt | processing/loaders.py:50-56 | route j is the folder joined with record j's file name |
| Loaders.LastWrite | processing/loaders.py:52-53 | the last position writing the same route: no later position writes it |
| Loaders.Persist | processing/loaders.py:52-53 | writing the records in turn: no existing file disappears, and the last route written holds the last content |
| Loaders.PersistHasRoutes | processing/loaders.py:52-53 | every route written exists afterwards |
| Loaders.PersistLastWins | processing/loaders.py:52-53 | after the writes, a route holds the content of its last write |
| Loaders.PersistKeeps | processing/loaders.py:52-53 | after the writes, a path that is no route keeps its presence (or absence) and its content |
| Loaders.CombinedHoldsSurvivors | processing/loaders.py:58-61 | when no route is the combined path, the combined file holds each route's surviving content, in route order |
| Loaders.GetSequencesSucceedsIff | processing/loaders.py:40-63 | the call returns exactly when every record has a file name, and then returns one route per id, in order, each the folder joined with that record's name |
| Loaders.GetSequencesFailure | processing/loaders.py:42-56 | a record without a header token raises the IndexError for its first line; the records before it stay written; no other path changes; no combined file is written |
| Loaders.GetSequencesRouteContents | processing/loaders.py:42-56 | after a normal return every route other than the combined path holds the content of its last write |
| Loaders.GetSequencesCombined | processing/loaders.py:58-61 | after a normal return, when no route is the combined path, the combined file holds the surviving content of every route, in route order |
| Loaders.GetSequencesKeepsOthers | processing/loaders.py:40-63 | after a normal return every path that is neither a route nor the combined file is unchanged |
| Loaders.SavedRecordLoadsBack | processing/loaders.py:52-53 | a saved record whose route is not the combined path and that no later record overwrites, read back by the FASTA loader, gives its residues: the text after its header with breaks removed |
| Loaders.DuplicateAccessionCombinedTwice | processing/loaders.py:47-61 | two records with one accession share a file that keeps the second; the combined file holds the second twice |
| Loaders.CombinedPath | processing/loaders.py:58 | the combined file lives under `sequences/` and ends in `.fasta`, whatever the folder |
| Loaders.StoreCombined | processing/loaders.py:58-61 | writing the combined file adds exactly that one path to the existing files |
| Loaders.GetSequencesOutcome | processing/loaders.py:40-63 | what the call returns and leaves behind: on a normal return, one route per fetched record; otherwise the IndexError of a record without a header token |
| Loaders.GetSequencesById | processing/loaders.py:40-63 | the returned routes (or the error raised) and the new files are exactly those of `GetSequencesOutcome` for the texts fetched |
| Loaders.SaveRecords | processing/loaders.py:42-56 | writes records in order up to the first without a file name, returning the routes written and that record's error |
| Loaders.WriteCombined | processing/loaders.py:58-61 | the combined file is truncated, then receives every route's contents read back in order |
| Strings.JoinWith | processing/loaders.py:31 | `",".join(id_list)`: empty for no ids, the id itself for one id, starting with the first id otherwise |
| Strings.JoinWithSnoc | processing/loaders.py:31 | each further id is appended after one separator |
| Loaders.ApiLoad | processing/loaders.py:30-38 | returns the parsed batch fetch when the per-id save returns, the save's error otherwise, and leaves the save's files |
| Functions.RequestUrl | functions.py:4-5 | the URL is the RCSB download prefix, the upper-case id and `.pdb` |
| Functions.DestinationRoute | functions.py:9-13 | ends in `.pdb`: `<ID>.pdb` without a route; a route already ending in `.pdb` unchanged; otherwise the route with exactly the suffix appended |
| Functions.DestinationRouteIdempotent | functions.py:12-13 | passing a returned route back in names the same file |
| Functions.DownloadIgnoresIdCase | functions.py:4-10 | ids equal up to letter case fetch the same URL and default to the same file |
| Functions.DownloadPdb | functions.py:3-19 | on status 200 writes the response text to the destination and returns it; any other status raises with the code and writes nothing |

## Left out

- Network I/O is not modelled: Entrez `efetch` and `requests.get` are pure
  parameters. Fetch failures, timeouts and `requests` exceptions are not
  modelled, and neither is the handle's `close`.
- Biopython parsing (`SeqIO.parse`) is an opaque parameter. `RandomLoad`
  returns the plain string that is wrapped in a Biopython `Seq`.
- Randomness is a nondeterministic choice per symbol. The uniform
  distribution of `random.choices` is not modelled.
- The `print` progress messages, `Entrez.email` and the contact address are
  not modelled.
- The `DataLoader` abstract base class is left out. The three loaders are
  cases of one datatype, and their `load` methods are separate operations.
- Filesystem failures other than a missing file are left out: missing
  directories, permissions, disk space. Writing to a path in a folder that
  does not exist succeeds in the model.
- Line endings and encodings are not modelled: text mode's universal-newline
  translation, and any decoding.
- `Strings.Upper`, `Strings.Lower`: ASCII letters only; Python's full
  Unicode case mapping is not modelled.
- `Loaders.StoreCombined` does not model the case where a record's own route
  is the combined path. A read then returns what was written so far only as
  far as Python's write buffer has been flushed; the model reads it as empty.
- `Loaders.GetSequencesCombined` states the combined file's contents only
  when no record's route is the combined path itself, for the same reason.
- `Loaders.ReadLines`: cuts at `\n` only. Text mode's universal-newline
  translation, which would turn `\r\n` and `\r` into `\n` first, is not
  modelled.
- Paths are compared as strings. Different spellings of one file are two
  files in the model: `a//b` and `a/b`, `./sequences/x` and `sequences/x`, a
  relative and an absolute path, or two names that differ only in case on a
  case-insensitive filesystem. So `Loaders.PersistKeeps`,
  `Loaders.DuplicateAccessionCombinedTwice` and the guard that no route is
  the combined path speak of textually equal routes only.
