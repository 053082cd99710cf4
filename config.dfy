/** The service's configuration constants (app/config.py). */
module Config {
  import opened Wrappers

  /** Largest accepted upload, in bytes: 5 MiB. */
  const MaxFileSize: int := 5 * 1024 * 1024

  /** The MIME types an upload may declare (compared after lower-casing). */
  const AllowedMimeTypes: set<string> := {"image/jpeg", "image/jpg", "image/png"}

  /**
   * The MIME-type-to-extension dictionary, as its entries in insertion order.
   * The order matters: image lookups try the extensions in this order.
   */
  const MimeToExtension: seq<(string, string)> :=
    [("image/jpeg", "jpg"), ("image/jpg", "jpg"), ("image/png", "png")]

  /** The dictionary's values in insertion order (`MIME_TO_EXTENSION.values()`). */
  function ExtensionValues(): (exts: seq<string>)
    ensures exts == ["jpg", "jpg", "png"]
  {
    seq(|MimeToExtension|, i requires 0 <= i < |MimeToExtension| => MimeToExtension[i].1)
  }

  /** Dictionary lookup in a list of entries: the value of the first entry with this key. */
  function Lookup(entries: seq<(string, string)>, key: string): (r: Option<string>)
    ensures r.Some? <==> exists i :: 0 <= i < |entries| && entries[i].0 == key
    ensures r.Some? ==>
      exists i :: 0 <= i < |entries| && entries[i] == (key, r.value) && (forall j :: 0 <= j < i ==> entries[j].0 != key)
  {
    if entries == [] then None
    else if entries[0].0 == key then Some(entries[0].1)
    else
      var r := Lookup(entries[1..], key);
      assert forall i :: 0 < i < |entries| ==> entries[i] == entries[1..][i - 1];
      r
  }

  /** `MIME_TO_EXTENSION.get(mime)`. */
  function ExtensionFor(mime: string): (r: Option<string>)
    ensures r.Some? <==> mime in AllowedMimeTypes
    ensures r.Some? ==> r.value == "jpg" || r.value == "png"
    ensures mime == "image/jpeg" || mime == "image/jpg" ==> r == Some("jpg")
    ensures mime == "image/png" ==> r == Some("png")
  {
    Lookup(MimeToExtension, mime)
  }
}
