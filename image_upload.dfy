/** The `ImageUpload` component's client-side checks on a chosen file, and
    its drag-highlight state. The `onImageSelect` callback is the
    `Selected` outcome; the `alert`s are the two rejection outcomes. */
module ImageUpload {

  import opened Wrappers
  import opened Strings

  const DefaultAccept: string := "image/jpeg,image/jpg,image/png,image/webp"
  const DefaultMaxSize: int := 5 * 1024 * 1024

  /** What the component reads of a `File`. */
  datatype File = File(size: int, mimeType: string)

  /** What `handleFileSelect` does with a file list. */
  datatype SelectOutcome = Ignored | TooLarge | WrongType | Selected(file: File)

  /** `accept.split(",").map(type => type.trim())`. */
  function AcceptedTypes(accept: string): (r: seq<string>)
    ensures |r| == |Split(accept, ',')| && |r| >= 1
    ensures forall k :: 0 <= k < |r| ==> r[k] == Trim(Split(accept, ',')[k])
  {
    TrimAll(Split(accept, ','))
  }

  function TrimAll(parts: seq<string>): (r: seq<string>)
    ensures |r| == |parts|
    ensures forall k :: 0 <= k < |r| ==> r[k] == Trim(parts[k])
  {
    seq(|parts|, k requires 0 <= k < |parts| => Trim(parts[k]))
  }

  /** `handleFileSelect`: only the first file is looked at; a null or empty
      list does nothing; the size check comes before the type check, and
      the type must equal one accepted entry exactly. */
  function HandleFileSelect(files: Option<seq<File>>, accept: string, maxSize: int): (r: SelectOutcome)
    ensures r.Ignored? <==> files.None? || files.value == []
    ensures r.TooLarge? <==> files.Some? && files.value != [] && files.value[0].size > maxSize
    ensures r.WrongType? <==>
      files.Some? && files.value != [] && files.value[0].size <= maxSize &&
      files.value[0].mimeType !in AcceptedTypes(accept)
    ensures r.Selected? <==>
      files.Some? && files.value != [] && files.value[0].size <= maxSize &&
      files.value[0].mimeType in AcceptedTypes(accept)
    ensures r.Selected? ==> r.file == files.value[0]
  {
    if files.None? || files.value == [] then Ignored
    else
      var file := files.value[0];
      if file.size > maxSize then TooLarge
      else if file.mimeType !in AcceptedTypes(accept) then WrongType
      else Selected(file)
  }

  const Jpeg: string := "image/jpeg"
  const Jpg: string := "image/jpg"
  const Png: string := "image/png"
  const Webp: string := "image/webp"

  /** A string with no white space at either end and no comma. */
  predicate PlainEntry(e: string) {
    ',' !in e && (|e| > 0 ==> !IsSpace(e[0]) && !IsSpace(e[|e| - 1]))
  }

  /** Trimming entries with no white space at their ends changes none. */
  lemma TrimAllPlain(parts: seq<string>)
    requires forall k :: 0 <= k < |parts| ==> PlainEntry(parts[k])
    ensures TrimAll(parts) == parts
  {
    forall k | 0 <= k < |parts| ensures TrimAll(parts)[k] == parts[k] {
      TrimUnpadded(parts[k]);
    }
  }

  /** Four comma-free entries joined by commas split back into them. */
  lemma SplitFour(a: string, b: string, c: string, d: string)
    requires ',' !in a && ',' !in b && ',' !in c && ',' !in d
    ensures Split(a + [','] + (b + [','] + (c + [','] + d)), ',') == [a, b, c, d]
  {
    SplitNoSeparator(d, ',');
    SplitAtFirst(c, ',', d);
    SplitAtFirst(b, ',', c + [','] + d);
    SplitAtFirst(a, ',', b + [','] + (c + [','] + d));
  }

  /** Four plain entries joined by commas parse back to those entries. */
  lemma AcceptedTypesOfFour(a: string, b: string, c: string, d: string)
    requires PlainEntry(a) && PlainEntry(b) && PlainEntry(c) && PlainEntry(d)
    ensures AcceptedTypes(a + [','] + (b + [','] + (c + [','] + d))) == [a, b, c, d]
  {
    SplitFour(a, b, c, d);
    TrimAllPlain([a, b, c, d]);
  }

  /** The default accept string names exactly the four image types. */
  lemma DefaultAcceptList()
    ensures AcceptedTypes(DefaultAccept) == [Jpeg, Jpg, Png, Webp]
  {
    assert DefaultAccept == Jpeg + [','] + (Jpg + [','] + (Png + [','] + Webp));
    AcceptedTypesOfFour(Jpeg, Jpg, Png, Webp);
  }

  /** With the defaults, a file of exactly 5 MB and an allowed type is
      selected; one byte more is refused. */
  lemma DefaultSizeBoundInclusive(mimeType: string)
    requires mimeType in [Jpeg, Jpg, Png, Webp]
    ensures HandleFileSelect(Some([File(DefaultMaxSize, mimeType)]), DefaultAccept, DefaultMaxSize).Selected?
    ensures HandleFileSelect(Some([File(DefaultMaxSize + 1, mimeType)]), DefaultAccept, DefaultMaxSize) == TooLarge
  {
    DefaultAcceptList();
  }

  /** The drop zone's highlight. */
  class DropZone {
    var dragActive: bool

    constructor ()
      ensures !dragActive
    {
      dragActive := false;
    }

    /** `handleDrag`: enter and over highlight, leave clears, any other
        event type leaves the highlight as it was. */
    method HandleDrag(eventType: string)
      modifies this
      ensures eventType == "dragenter" || eventType == "dragover" ==> dragActive
      ensures eventType == "dragleave" ==> !dragActive
      ensures eventType !in {"dragenter", "dragover", "dragleave"} ==> dragActive == old(dragActive)
    {
      if eventType == "dragenter" || eventType == "dragover" {
        dragActive := true;
      } else if eventType == "dragleave" {
        dragActive := false;
      }
    }

    /** `handleDrop`: always clears the highlight, then hands a non-empty
        file list to `handleFileSelect`. */
    method HandleDrop(files: Option<seq<File>>, accept: string, maxSize: int) returns (r: SelectOutcome)
      modifies this
      ensures !dragActive
      ensures r == HandleFileSelect(files, accept, maxSize)
    {
      dragActive := false;
      if files.Some? && files.value != [] {
        r := HandleFileSelect(files, accept, maxSize);
      } else {
        r := Ignored;
      }
    }
  }
}
