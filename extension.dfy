/**
 * The container extension of the uploaded file:
 * `meta_data.format.filename.split('.').pop() || 'mp4'`.
 */
module Extension {
  import Text

  const DefaultExtension: string := "mp4"

  /** The text after the last `.` of the probed file name, or `mp4` when that text is empty. */
  function InputExtension(probedName: string): string
  {
    var last := Text.Last(probedName, '.');
    if last == "" then DefaultExtension else last
  }

  /**
   * A name that is empty or ends with `.` falls back to `mp4`; any other
   * name yields its longest dot-free suffix, which is the whole name when
   * the name has no `.` at all.
   */
  lemma InputExtensionSpec(probedName: string)
    ensures InputExtension(probedName) != ""
    ensures (probedName == "" || probedName[|probedName| - 1] == '.') ==> InputExtension(probedName) == "mp4"
    ensures probedName != "" && probedName[|probedName| - 1] != '.' ==>
      var ext := InputExtension(probedName);
      && '.' !in ext
      && |ext| <= |probedName|
      && probedName[|probedName| - |ext|..] == ext
      && (|ext| == |probedName| || probedName[|probedName| - |ext| - 1] == '.')
    ensures '.' !in probedName && probedName != "" ==> InputExtension(probedName) == probedName
  {
    Text.LastIsSuffixAfterSeparator(probedName, '.');
    var last := Text.Last(probedName, '.');
    if probedName != "" && probedName[|probedName| - 1] == '.' {
      assert last == "";
    }
    if '.' !in probedName {
      assert last == probedName;
    }
  }
}
