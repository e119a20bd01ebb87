/** The importer's checks of an uploaded file's name and MIME type against
    the tables of accepted file endings and MIME types per service. */
module ImporterFile {
  import opened JsText
  import opened JsValues

  /** `fileName.split(".")` and its last element. */
  function FileEnding(fileName: string): string {
    var parts := Split(fileName, '.');
    parts[|parts| - 1]
  }

  /** The ending is the text after the last '.', or the whole name when it
      has none. */
  lemma FileEndingIsLastSegment(fileName: string)
    ensures IsLastSegment(fileName, '.', FileEnding(fileName))
    ensures '.' !in fileName ==> FileEnding(fileName) == fileName
  {
    SplitLast(fileName, '.');
  }

  /** The ending is empty exactly for an empty name and a name ending in '.'. */
  lemma EmptyEnding(fileName: string)
    ensures FileEnding(fileName) == [] <==> |fileName| == 0 || fileName[|fileName| - 1] == '.'
  {
    FileEndingIsLastSegment(fileName);
  }

  /** `isFileExtensionAccepted(fileName, serviceType)` against the table
      `fileTypes` (`FILETYPES`, which is not part of this model). Looking up
      a service without an entry and calling `includes` on it throws. */
  function IsFileExtensionAccepted(fileName: string, serviceType: string,
                                   fileTypes: map<string, seq<string>>): Outcome<bool> {
    var fileEnding := FileEnding(fileName);
    if |fileEnding| == 0 then Ok(false)
    else if serviceType !in fileTypes then TypeError
    else Ok("." + Lower(fileEnding) in fileTypes[serviceType])
  }

  /** A name is accepted iff it has a non-empty ending whose lower case,
      after a '.', is listed for the service; a name with an empty ending is
      refused even for an unknown service. */
  lemma ExtensionAccepted(fileName: string, serviceType: string, fileTypes: map<string, seq<string>>)
    ensures FileEnding(fileName) == [] ==> IsFileExtensionAccepted(fileName, serviceType, fileTypes) == Ok(false)
    ensures IsFileExtensionAccepted(fileName, serviceType, fileTypes) == Ok(true) <==>
              serviceType in fileTypes && |FileEnding(fileName)| > 0 &&
              "." + Lower(FileEnding(fileName)) in fileTypes[serviceType]
    ensures IsFileExtensionAccepted(fileName, serviceType, fileTypes).TypeError? <==>
              |FileEnding(fileName)| > 0 && serviceType !in fileTypes
  {
  }

  /** The check does not depend on the case of the file name. */
  lemma ExtensionCaseInsensitive(fileName: string, serviceType: string, fileTypes: map<string, seq<string>>)
    ensures IsFileExtensionAccepted(Lower(fileName), serviceType, fileTypes)
            == IsFileExtensionAccepted(fileName, serviceType, fileTypes)
  {
    hide *;
    var e := FileEnding(fileName);
    FileEndingIsLastSegment(fileName);
    FileEndingIsLastSegment(Lower(fileName));
    LowerLastSegment(fileName, '.', e);
    LastSegmentUnique(Lower(fileName), '.', FileEnding(Lower(fileName)), Lower(e));
    LowerIdempotent(e);
    AcceptedByEnding(fileName, Lower(fileName), serviceType, fileTypes);
  }

  lemma LowerIdempotent(s: string)
    ensures Lower(Lower(s)) == Lower(s)
    ensures |Lower(s)| == |s|
  {
  }

  /** The check depends only on the lower-cased ending. */
  lemma AcceptedByEnding(a: string, b: string, serviceType: string, fileTypes: map<string, seq<string>>)
    requires Lower(FileEnding(a)) == Lower(FileEnding(b)) && |FileEnding(a)| == |FileEnding(b)|
    ensures IsFileExtensionAccepted(a, serviceType, fileTypes) == IsFileExtensionAccepted(b, serviceType, fileTypes)
  {
  }

  /** The MIME type table of the importer. */
  function MimeTypes(): map<string, seq<string>> {
    map[ "geojson" := ["application/json", "application/vnd.geo+json", "application/geo+json"],
         "shapezip" := ["application/zip", "application/octet-stream"],
         "geopackage" := ["application/octet-stream"] ]
  }

  /** `isMimeTypeAccepted(mimeType, serviceType)` against the table
      `mimeTypes`. */
  function IsMimeTypeAccepted(mimeType: string, serviceType: string,
                              mimeTypes: map<string, seq<string>>): (r: Outcome<bool>)
    ensures r.TypeError? <==> serviceType !in mimeTypes
    ensures r == Ok(true) <==> serviceType in mimeTypes && Lower(mimeType) in mimeTypes[serviceType]
  {
    if serviceType !in mimeTypes then TypeError
    else Ok(Lower(mimeType) in mimeTypes[serviceType])
  }

  /** With the importer's table the GeoPackage accepts
      `application/octet-stream` in any case, and WMS has no entry, so the
      check throws. */
  lemma MimeTypeTable()
    ensures IsMimeTypeAccepted("Application/Octet-Stream", "geopackage", MimeTypes()) == Ok(true)
    ensures IsMimeTypeAccepted("text/xml", "wms", MimeTypes()).TypeError?
  {
    var m := "Application/Octet-Stream";
    assert Lower(m) == MimeTypes()["geopackage"][0];
    hide Lower, MimeTypes;
  }

  /** GeoJSON does not accept the generic binary type. */
  lemma GeoJsonMimeTypes()
    ensures IsMimeTypeAccepted("application/octet-stream", "geojson", MimeTypes()) == Ok(false)
  {
    var gj := MimeTypes()["geojson"];
    var m := "application/octet-stream";
    assert |gj| == 3 && gj[0][12] == 'j' && gj[1][12] == 'v' && gj[2][12] == 'g';
    assert Lower(m)[12] == 'o';
    hide Lower, MimeTypes;
  }
}
