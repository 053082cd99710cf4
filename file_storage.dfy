/**
 * The filesystem seen as two stores (app/utils/file_storage.py): image blobs keyed by
 * their file name `id.ext`, and analysis records keyed by image id, each record either
 * readable JSON or a file that cannot be read back.
 */
module FileStorage {
  import opened Wrappers
  import opened Config
  import opened Schemas

  type Bytes = seq<bv8>

  /** What the analysis file `id.json` holds. */
  datatype StoredRecord =
    /** Text that parses as a result. */
    | Readable(result: AnalysisResult)
    /** Text that is not valid JSON, or a file whose read fails with an I/O error. */
    | Corrupt
    /** Bytes that do not decode as text in the platform encoding. */
    | Undecodable

  /** The file name of the blob for an image id and extension. */
  function ImageFileName(imageId: string, extension: string): (name: string)
    ensures |name| == |imageId| + 1 + |extension|
    ensures name[..|imageId|] == imageId && name[|imageId|] == '.'
    ensures name[|imageId| + 1..] == extension
  {
    imageId + "." + extension
  }

  class Storage {
    /** The images directory: file name to content. */
    var images: map<string, Bytes>
    /** The analysis directory: image id to the content of `id.json`. */
    var records: map<string, StoredRecord>

    constructor (images: map<string, Bytes>, records: map<string, StoredRecord>)
      ensures this.images == images && this.records == records
    {
      this.images := images;
      this.records := records;
    }

    /** A blob is stored for `imageId` under one of the configured extensions. */
    ghost predicate HasImage(imageId: string)
      reads this
    {
      exists ext :: ext in ExtensionValues() && ImageFileName(imageId, ext) in images
    }

    /** A readable analysis record is stored for `imageId`. */
    ghost predicate HasRecord(imageId: string)
      reads this
    {
      imageId in records && records[imageId].Readable?
    }

    /** `save_image`: writes the blob `imageId.extension`, replacing any file of that name. */
    method SaveImage(imageId: string, content: Bytes, extension: string) returns (path: string)
      modifies this
      ensures path == ImageFileName(imageId, extension)
      ensures images == old(images)[path := content]
      ensures records == old(records)
      ensures extension in ExtensionValues() ==> HasImage(imageId)
    {
      path := ImageFileName(imageId, extension);
      images := images[path := content];
    }

    /** `image_exists`: tries each configured extension in order and stops at the first hit. */
    method ImageExists(imageId: string) returns (found: bool)
      ensures found <==> HasImage(imageId)
    {
      var exts := ExtensionValues();
      for i := 0 to |exts|
        invariant forall j :: 0 <= j < i ==> ImageFileName(imageId, exts[j]) !in images
      {
        if ImageFileName(imageId, exts[i]) in images {
          return true;
        }
      }
      return false;
    }

    /**
     * `get_image_path`: the blob found under the first configured extension that has one,
     * or nothing when no extension has one. So `jpg` wins over `png`.
     */
    method GetImagePath(imageId: string) returns (path: Option<string>)
      ensures path.Some? <==> HasImage(imageId)
      ensures path.Some? ==> path.value in images
      ensures path.Some? ==>
        exists i :: 0 <= i < |ExtensionValues()| && path.value == ImageFileName(imageId, ExtensionValues()[i]) &&
          forall j :: 0 <= j < i ==> ImageFileName(imageId, ExtensionValues()[j]) !in images
      ensures ImageFileName(imageId, "jpg") in images ==> path == Some(ImageFileName(imageId, "jpg"))
    {
      var exts := ExtensionValues();
      for i := 0 to |exts|
        invariant forall j :: 0 <= j < i ==> ImageFileName(imageId, exts[j]) !in images
      {
        var candidate := ImageFileName(imageId, exts[i]);
        if candidate in images {
          assert i != 0 ==> ImageFileName(imageId, exts[0]) !in images;
          return Some(candidate);
        }
      }
      return None;
    }

    /** `save_analysis_result`: writes `imageId.json`, replacing any previous record. */
    method SaveAnalysisResult(imageId: string, result: AnalysisResult) returns (path: string)
      modifies this
      ensures path == imageId + ".json"
      ensures records == old(records)[imageId := Readable(result)]
      ensures images == old(images)
      ensures HasRecord(imageId) && records[imageId].result == result
    {
      path := imageId + ".json";
      records := records[imageId := Readable(result)];
    }

    /**
     * `load_analysis_result`, with every unreadable record folded into "no record": the
     * stored result, or nothing when the file is missing or cannot be read back; never an error.
     */
    method LoadAnalysisResult(imageId: string) returns (result: Option<AnalysisResult>)
      ensures imageId !in records ==> result == None
      ensures imageId in records && !records[imageId].Readable? ==> result == None
      ensures result.Some? <==> HasRecord(imageId)
      ensures result.Some? ==> records[imageId] == Readable(result.value)
    {
      if imageId !in records {
        return None;
      }
      match records[imageId]
      case Readable(r) => return Some(r);
      case Corrupt => return None;
      case Undecodable => return None;
    }

    /**
     * `load_analysis_result` as written: only JSON decoding errors and I/O errors are caught,
     * so a record whose bytes do not decode as text raises (`raised`) out of the load.
     */
    method LoadAnalysisResultAsWritten(imageId: string) returns (result: Option<AnalysisResult>, raised: bool)
      ensures raised <==> imageId in records && records[imageId] == Undecodable
      ensures raised ==> result == None
      ensures !raised ==> (result.Some? <==> HasRecord(imageId))
      ensures result.Some? ==> records[imageId] == Readable(result.value)
    {
      if imageId !in records {
        return None, false;
      }
      match records[imageId]
      case Readable(r) => return Some(r), false;
      case Corrupt => return None, false;
      case Undecodable => return None, true;
    }
  }

  /** Saving an analysis result and loading it back returns the saved result. */
  method SaveThenLoad(store: Storage, imageId: string, result: AnalysisResult) returns (loaded: Option<AnalysisResult>)
    modifies store
    ensures loaded == Some(result)
    ensures store.images == old(store.images)
    ensures store.records == old(store.records)[imageId := Readable(result)]
  {
    var _ := store.SaveAnalysisResult(imageId, result);
    loaded := store.LoadAnalysisResult(imageId);
  }

  /**
   * A record file holding bytes that are not text: the load as written raises, while the
   * corrected load reports no record.
   */
  method UndecodableRecordEscapes() returns (raisedAsWritten: bool, corrected: Option<AnalysisResult>)
    ensures raisedAsWritten && corrected == None
  {
    var store := new Storage(map[], map["x" := Undecodable]);
    var _, raised := store.LoadAnalysisResultAsWritten("x");
    raisedAsWritten := raised;
    corrected := store.LoadAnalysisResult("x");
  }
}
