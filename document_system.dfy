/**
 * The multi-format document loader (`DocumentSystem`): documents from pasted
 * text, and a batch conversion of local files in which missing files are
 * dropped, failed or empty conversions are skipped, and an exception stops
 * the batch but keeps the documents collected so far.
 */
module DocumentSystem {
  import opened Results
  import opened Strings
  import opened Documents

  /** The text clean-up applied before indexing: `text.replace("\n", " ").strip()`. */
  function Normalize(text: string): (r: string)
    ensures Stripped(r) && |r| <= |text|
  {
    Strip(ReplaceNewlines(text))
  }

  /** Normalised text has no line breaks and no whitespace at either end, and is no longer than the text. */
  lemma NormalizeClean(text: string)
    ensures var r := Normalize(text); '\n' !in r && Stripped(r) && |r| <= |text|
  {
    var k := StripSlice(ReplaceNewlines(text));
  }

  /** Normalising twice is the same as normalising once. */
  lemma NormalizeIdempotent(text: string)
    ensures Normalize(Normalize(text)) == Normalize(text)
  {
    var once := Normalize(text);
    NormalizeClean(text);
    ReplaceNewlinesWithoutNewline(once);
    StripStripped(once);
  }

  /**
   * `create_document_from_text`: the normalised text, as plain text, its
   * source being `source` ("user_input" unless given), and the id "doc-"
   * followed by the hex form of a random UUID, passed in as `uuidHex`.
   */
  function CreateDocumentFromText(content: string, uuidHex: string, source: string := "user_input"): (d: Document)
    requires IsUuidHex(uuidHex)
    ensures '\n' !in d.content && Stripped(d.content)
    ensures d.content == Normalize(content)
    ensures d.mimeType == TextPlain && d.metadata == map[SourceKey := source]
    ensures d.documentId == DocumentIdPrefix + uuidHex
    ensures |d.documentId| == 36 && d.documentId[..4] == DocumentIdPrefix && IsUuidHex(d.documentId[4..])
  {
    var d := BatchDocument(uuidHex, source, content);
    assert d.documentId == DocumentIdPrefix + uuidHex;
    d
  }

  /**
   * What the converter gives back for one input file: a result whose document
   * exports the given text, or whose document is missing; or the converter
   * raised an exception when it reached this file.
   */
  datatype ConversionOutcome = Converted(document: Option<string>) | Raised

  /** The paths that exist, in their original order (`[Path(p) for p in paths if Path(p).exists()]`). */
  function ExistingPaths(paths: seq<string>, present: string -> bool): (r: seq<string>)
    ensures |r| <= |paths|
    decreases |paths|
  {
    if paths == [] then []
    else (if present(paths[0]) then [paths[0]] else []) + ExistingPaths(paths[1..], present)
  }

  /**
   * The existing paths are exactly the paths that exist, none added, none
   * dropped: each existing path occurs as often as in the input, any other
   * not at all.
   */
  lemma {:induction false} ExistingPathsMeaning(paths: seq<string>, present: string -> bool)
    ensures var r := ExistingPaths(paths, present);
      && |r| <= |paths|
      && (forall x :: x in r <==> x in paths && present(x))
      && (forall x :: multiset(r)[x] == if present(x) then multiset(paths)[x] else 0)
    decreases |paths|
  {
    if paths != [] {
      ExistingPathsMeaning(paths[1..], present);
      assert paths == [paths[0]] + paths[1..];
      assert multiset(paths) == multiset([paths[0]]) + multiset(paths[1..]);
      var head := if present(paths[0]) then [paths[0]] else [];
      assert multiset(ExistingPaths(paths, present)) == multiset(head) + multiset(ExistingPaths(paths[1..], present));
    }
  }

  /** Filtering keeps the input order: the existing paths of two parts are those of the first, then those of the second. */
  lemma {:induction false} ExistingPathsAppend(a: seq<string>, b: seq<string>, present: string -> bool)
    ensures ExistingPaths(a + b, present) == ExistingPaths(a, present) + ExistingPaths(b, present)
    decreases |a|
  {
    if a == [] {
      assert a + b == b;
    } else {
      var head := if present(a[0]) then [a[0]] else [];
      assert (a + b)[0] == a[0];
      assert (a + b)[1..] == a[1..] + b;
      ExistingPathsAppend(a[1..], b, present);
      calc {
        ExistingPaths(a + b, present);
        head + ExistingPaths(a[1..] + b, present);
        head + (ExistingPaths(a[1..], present) + ExistingPaths(b, present));
        (head + ExistingPaths(a[1..], present)) + ExistingPaths(b, present);
      }
    }
  }

  /**
   * How many inputs the batch gets through before the converter raises: the
   * position of the first input it raises on, or all of them.
   */
  function ConvertedCount(inputs: seq<string>, convert: string -> ConversionOutcome): (k: nat)
    ensures k <= |inputs|
    ensures forall i :: 0 <= i < k ==> !convert(inputs[i]).Raised?
    ensures k < |inputs| ==> convert(inputs[k]).Raised?
    decreases |inputs|
  {
    if inputs == [] || convert(inputs[0]).Raised? then 0 else 1 + ConvertedCount(inputs[1..], convert)
  }

  /**
   * Walking the batch in order: at an input the converter raises on, the
   * batch stops there; past any other input, it goes on.
   */
  lemma ConvertedCountStep(inputs: seq<string>, convert: string -> ConversionOutcome, i: nat)
    requires i < |inputs| && i <= ConvertedCount(inputs, convert)
    ensures convert(inputs[i]).Raised? ==> ConvertedCount(inputs, convert) == i
    ensures !convert(inputs[i]).Raised? ==> i + 1 <= ConvertedCount(inputs, convert)
  {
  }

  /** `d` is the document the loader makes from `file`, whose conversion gave non-blank text. */
  predicate ProducedFrom(d: Document, file: string, convert: string -> ConversionOutcome) {
    && convert(file).Converted?
    && convert(file).document.Some?
    && d.content == Normalize(convert(file).document.value)
    && d.content != ""
    && d.mimeType == TextPlain
    && d.metadata == map[SourceKey := file]
  }

  /** A file whose conversion gives a document with non-blank text. */
  predicate Yields(file: string, convert: string -> ConversionOutcome) {
    convert(file).Converted? && convert(file).document.Some? && Normalize(convert(file).document.value) != ""
  }

  /** The document the batch makes from `file`: its converted text normalised, as plain text, with `file` as its source. */
  function BatchDocument(idSuffix: string, file: string, text: string): (d: Document)
    ensures |d.documentId| == |DocumentIdPrefix| + |idSuffix|
    ensures d.documentId[..|DocumentIdPrefix|] == DocumentIdPrefix && d.documentId[|DocumentIdPrefix|..] == idSuffix
    ensures '\n' !in d.content && Stripped(d.content) && d.content == Normalize(text)
    ensures d.mimeType == TextPlain && d.metadata == map[SourceKey := file]
  {
    NormalizeClean(text);
    Document(DocumentIdPrefix + idSuffix, Normalize(text), TextPlain, map[SourceKey := file])
  }

  /**
   * The documents made from `files`, in order; the `j`-th document made takes
   * the `j`-th random id from `uuid`.
   */
  function Collected(files: seq<string>, convert: string -> ConversionOutcome, uuid: nat -> string): (r: seq<Document>)
    ensures |r| <= |files|
    ensures forall j :: 0 <= j < |r| ==> r[j].documentId == DocumentIdPrefix + uuid(j)
    decreases |files|
  {
    if files == [] then []
    else
      var done := Collected(files[..|files| - 1], convert, uuid);
      var file := files[|files| - 1];
      if Yields(file, convert) then
        done + [BatchDocument(uuid(|done|), file, convert(file).document.value)]
      else done
  }

  /** Every collected document is made from one of the files. */
  lemma {:induction false} CollectedSound(files: seq<string>, convert: string -> ConversionOutcome, uuid: nat -> string, j: nat)
    returns (k: nat)
    requires j < |Collected(files, convert, uuid)|
    ensures k < |files| && ProducedFrom(Collected(files, convert, uuid)[j], files[k], convert)
    decreases |files|
  {
    var front := files[..|files| - 1];
    var done := Collected(front, convert, uuid);
    if j < |done| {
      k := CollectedSound(front, convert, uuid, j);
      assert Collected(files, convert, uuid)[j] == done[j];
      assert files[k] == front[k];
    } else {
      k := |files| - 1;
    }
  }

  /** Every file whose conversion yields text has its document among those collected. */
  lemma {:induction false} CollectedComplete(files: seq<string>, convert: string -> ConversionOutcome, uuid: nat -> string, k: nat)
    returns (j: nat)
    requires k < |files| && Yields(files[k], convert)
    ensures j < |Collected(files, convert, uuid)| && ProducedFrom(Collected(files, convert, uuid)[j], files[k], convert)
    decreases |files|
  {
    var front := files[..|files| - 1];
    var done := Collected(front, convert, uuid);
    var r := Collected(files, convert, uuid);
    assert r[..|done|] == done;
    if k < |front| {
      assert files[k] == front[k];
      j := CollectedComplete(front, convert, uuid, k);
      assert r[j] == done[j];
    } else {
      j := |done|;
      assert r == done + [r[j]];
    }
  }

  /** An input whose conversion yields text adds its document, with the next unused id. */
  lemma CollectedKeep(inputs: seq<string>, i: nat, convert: string -> ConversionOutcome, uuid: nat -> string, text: string)
    requires i < |inputs| && convert(inputs[i]) == Converted(Some(text)) && Normalize(text) != ""
    ensures var done := Collected(inputs[..i], convert, uuid);
      Collected(inputs[..i + 1], convert, uuid) ==
        done + [BatchDocument(uuid(|done|), inputs[i], text)]
  {
    assert inputs[..i + 1][..i] == inputs[..i];
  }

  /** An input whose conversion yields no text adds nothing. */
  lemma CollectedSkip(inputs: seq<string>, i: nat, convert: string -> ConversionOutcome, uuid: nat -> string)
    requires i < |inputs| && !Yields(inputs[i], convert)
    ensures Collected(inputs[..i + 1], convert, uuid) == Collected(inputs[..i], convert, uuid)
  {
    assert inputs[..i + 1][..i] == inputs[..i];
  }

  /** A later part of the batch can only add documents after those of an earlier part. */
  lemma {:induction false} CollectedPrefix(files: seq<string>, more: seq<string>, convert: string -> ConversionOutcome, uuid: nat -> string)
    ensures Collected(files, convert, uuid) <= Collected(files + more, convert, uuid)
    decreases |more|
  {
    if more == [] {
      assert files + more == files;
    } else {
      var front := more[..|more| - 1];
      CollectedPrefix(files, front, convert, uuid);
      assert (files + more)[..|files + more| - 1] == files + front;
    }
  }

  /**
   * When every id the UUID source gives is a `uuid4().hex`, every collected
   * document's id is "doc-" followed by it, 36 characters in all.
   */
  lemma CollectedIds(files: seq<string>, convert: string -> ConversionOutcome, uuid: nat -> string)
    requires forall j: nat :: IsUuidHex(uuid(j))
    ensures var r := Collected(files, convert, uuid);
      forall j :: 0 <= j < |r| ==>
        && |r[j].documentId| == 36
        && r[j].documentId[..4] == DocumentIdPrefix
        && IsUuidHex(r[j].documentId[4..])
  {
    var r := Collected(files, convert, uuid);
    forall j | 0 <= j < |r|
      ensures |r[j].documentId| == 36 && r[j].documentId[..4] == DocumentIdPrefix && IsUuidHex(r[j].documentId[4..])
    {
      assert r[j].documentId[4..] == uuid(j);
    }
  }

  /**
   * A document collected from the first `n` existing paths is clean non-empty
   * plain text whose source is one of those paths.
   */
  lemma CollectedFromExisting(filePaths: seq<string>, present: string -> bool, convert: string -> ConversionOutcome, uuid: nat -> string, n: nat)
    requires n <= |ExistingPaths(filePaths, present)|
    ensures var r := Collected(ExistingPaths(filePaths, present)[..n], convert, uuid);
      forall j :: 0 <= j < |r| ==>
        && '\n' !in r[j].content && Stripped(r[j].content) && r[j].content != ""
        && r[j].mimeType == TextPlain
        && SourceKey in r[j].metadata
        && r[j].metadata[SourceKey] in filePaths
        && present(r[j].metadata[SourceKey])
  {
    var inputs := ExistingPaths(filePaths, present);
    ExistingPathsMeaning(filePaths, present);
    var files := inputs[..n];
    var r := Collected(files, convert, uuid);
    forall j | 0 <= j < |r|
      ensures && '\n' !in r[j].content && Stripped(r[j].content) && r[j].content != ""
        && r[j].mimeType == TextPlain
        && SourceKey in r[j].metadata
        && r[j].metadata[SourceKey] in filePaths
        && present(r[j].metadata[SourceKey])
    {
      var k := CollectedSound(files, convert, uuid, j);
      NormalizeClean(convert(files[k]).document.value);
      assert files[k] in inputs;
    }
  }

  /**
   * `load_from_local_files`: drops missing paths (returning at once when none
   * is left), converts the rest in one batch, keeps each result with a
   * document whose normalised text is non-empty, and, when the converter
   * raises, returns what it has collected until then.
   */
  method LoadFromLocalFiles(
    filePaths: seq<string>,
    present: string -> bool,
    convert: string -> ConversionOutcome,
    uuid: nat -> string)
    returns (documents: seq<Document>)
    ensures var inputs := ExistingPaths(filePaths, present);
      documents == Collected(inputs[..ConvertedCount(inputs, convert)], convert, uuid)
    ensures ExistingPaths(filePaths, present) == [] ==> documents == []
    ensures |documents| <= |ExistingPaths(filePaths, present)|
  {
    var inputs := ExistingPaths(filePaths, present);
    if inputs == [] {
      return [];
    }
    documents := [];
    var i := 0;
    while i < |inputs|
      invariant 0 <= i <= |inputs|
      invariant i <= ConvertedCount(inputs, convert)
      invariant documents == Collected(inputs[..i], convert, uuid)
    {
      var outcome := convert(inputs[i]);
      ConvertedCountStep(inputs, convert, i);
      if outcome.Raised? {
        break;
      }
      if outcome.document.Some? {
        var content := Normalize(outcome.document.value);
        if content != "" {
          CollectedKeep(inputs, i, convert, uuid, outcome.document.value);
          documents := documents + [BatchDocument(uuid(|documents|), inputs[i], outcome.document.value)];
        } else {
          CollectedSkip(inputs, i, convert, uuid);
        }
      } else {
        CollectedSkip(inputs, i, convert, uuid);
      }
      i := i + 1;
    }
  }
}
