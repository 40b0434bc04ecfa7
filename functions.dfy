/**
 * Downloading a structure from the RCSB Protein Data Bank and saving it as
 * a `.pdb` file. The HTTP GET is the parameter `get`, mapping a URL to the
 * response it receives.
 */
module Functions {
  import opened Wrappers
  import opened Strings
  import opened Files

  const RcsbDownloadPrefix: string := "https://files.rcsb.org/download/"
  const PdbSuffix: string := ".pdb"
  const HttpOk: int := 200

  datatype HttpResponse = HttpResponse(statusCode: int, text: string)

  /** The exception raised for any status other than 200. */
  datatype DownloadError = HttpStatus(statusCode: int)

  /**
   * The id is lower-cased first and upper-cased in the URL, so the URL
   * carries the upper-case id whatever case it was given in.
   */
  function RequestUrl(pdbId: string): (url: string)
    ensures url == RcsbDownloadPrefix + Upper(pdbId) + PdbSuffix
  {
    UpperOfLower(pdbId);
    RcsbDownloadPrefix + Upper(Lower(pdbId)) + PdbSuffix
  }

  /**
   * Where the file goes: `<ID>.pdb` in the working directory when no route
   * is given, otherwise the route, with `.pdb` appended unless it already
   * ends so.
   */
  function DestinationRoute(pdbId: string, route: Option<string>): (dest: string)
    ensures EndsWith(dest, PdbSuffix)
    ensures route.None? ==> dest == Upper(pdbId) + PdbSuffix
    ensures route.Some? ==> route.value <= dest && |dest| - |route.value| <= |PdbSuffix|
    ensures route.Some? && EndsWith(route.value, PdbSuffix) ==> dest == route.value
    ensures route.Some? && !EndsWith(route.value, PdbSuffix) ==> dest == route.value + PdbSuffix
  {
    UpperOfLower(pdbId);
    match route
    case None =>
      var dest := Upper(Lower(pdbId)) + PdbSuffix;
      assert dest[|dest| - |PdbSuffix|..] == PdbSuffix;
      dest
    case Some(given) =>
      if EndsWith(given, PdbSuffix) then given
      else
        assert (given + PdbSuffix)[|given|..] == PdbSuffix;
        given + PdbSuffix
  }

  /** Passing back the route a download returned names the same file. */
  lemma DestinationRouteIdempotent(pdbId: string, other: string, route: Option<string>)
    ensures DestinationRoute(other, Some(DestinationRoute(pdbId, route))) == DestinationRoute(pdbId, route)
  {
  }

  /** Ids that differ only in letter case fetch the same URL and default to the same file. */
  lemma DownloadIgnoresIdCase(a: string, b: string, route: Option<string>)
    requires Lower(a) == Lower(b)
    ensures RequestUrl(a) == RequestUrl(b)
    ensures DestinationRoute(a, route) == DestinationRoute(b, route)
  {
  }

  /**
   * `download_pdb(pdb_id, route)`: on status 200 the response text is
   * written to the destination and the destination is returned; any other
   * status raises, and nothing is written.
   */
  method DownloadPdb(fs: FileSystem, pdbId: string, route: Option<string>, get: string -> HttpResponse)
    returns (r: Result<string, DownloadError>)
    modifies fs
    ensures var response := get(RequestUrl(pdbId));
            && (response.statusCode == HttpOk ==>
                  && r == Success(DestinationRoute(pdbId, route))
                  && fs.files == old(fs.files)[DestinationRoute(pdbId, route) := response.text])
            && (response.statusCode != HttpOk ==>
                  && r == Failure(HttpStatus(response.statusCode))
                  && fs.files == old(fs.files))
  {
    var id := Lower(pdbId);
    var url := RcsbDownloadPrefix + Upper(id) + PdbSuffix;
    UpperOfLower(pdbId);
    var response := get(url);
    if response.statusCode != HttpOk {
      return Failure(HttpStatus(response.statusCode));
    }
    var dest: string;
    if route.None? {
      dest := Upper(id) + PdbSuffix;
    } else {
      dest := route.value;
      if !EndsWith(dest, PdbSuffix) {
        dest := dest + PdbSuffix;
      }
    }
    fs.Write(dest, response.text);
    r := Success(dest);
  }
}
