/**
 * The plain-text loader (`DocumentService`): each path is read as UTF-8
 * text and becomes one document whose id is the path's position in the
 * input; a missing file is skipped, and any other read error ends the load.
 */
module DocumentService {
  import opened Results
  import opened Integers
  import opened Documents

  /**
   * What reading one path gives: its text, a missing file (`FileNotFoundError`),
   * or any other error, which the loader does not catch.
   */
  datatype ReadOutcome = Contents(text: string) | FileNotFound | ReadFailed(error: string)

  /** The document for the `i`-th path: id `doc-<i>`, the text unchanged, its source the path as given. */
  function FileDocument(i: nat, path: string, text: string): (d: Document)
    ensures |d.documentId| == |DocumentIdPrefix| + |Decimal(i)|
    ensures d.documentId[..|DocumentIdPrefix|] == DocumentIdPrefix && d.documentId[|DocumentIdPrefix|..] == Decimal(i)
    ensures d.content == text && d.mimeType == TextPlain
    ensures SourceKey in d.metadata && d.metadata[SourceKey] == path
  {
    Document(DocumentIdPrefix + Decimal(i), text, TextPlain, map[SourceKey := path])
  }

  /**
   * The outcome of loading `paths`, in order: the documents of the readable
   * files, or the error of the first read that failed other than by the file
   * being missing.
   */
  function ReadDocuments(paths: seq<string>, read: string -> ReadOutcome): (r: Result<seq<Document>, string>)
    ensures r.Success? ==> |r.value| <= |paths|
    decreases |paths|
  {
    if paths == [] then Success([])
    else
      var n := |paths| - 1;
      var before := ReadDocuments(paths[..n], read);
      if before.Failure? then before
      else
        match read(paths[n])
        case Contents(text) => Success(before.value + [FileDocument(n, paths[n], text)])
        case FileNotFound => before
        case ReadFailed(e) => Failure(e)
  }

  /** The positions of the paths that were read, in increasing order. */
  function ReadIndices(paths: seq<string>, read: string -> ReadOutcome): (r: seq<nat>)
    ensures |r| <= |paths|
    ensures forall j :: 0 <= j < |r| ==> r[j] < |paths| && read(paths[r[j]]).Contents?
    ensures forall j, k :: 0 <= j < k < |r| ==> r[j] < r[k]
    ensures forall i :: 0 <= i < |paths| && read(paths[i]).Contents? ==> i in r
    decreases |paths|
  {
    if paths == [] then []
    else
      var n := |paths| - 1;
      var front := ReadIndices(paths[..n], read);
      assert forall i :: 0 <= i < n ==> paths[..n][i] == paths[i];
      front + (if read(paths[n]).Contents? then [n] else [])
  }

  /** Once an earlier path has failed, the load has failed with that error whatever follows. */
  lemma {:induction false} FailureSticks(paths: seq<string>, read: string -> ReadOutcome, k: nat)
    requires k <= |paths| && ReadDocuments(paths[..k], read).Failure?
    ensures ReadDocuments(paths, read) == ReadDocuments(paths[..k], read)
    decreases |paths|
  {
    if k < |paths| {
      var n := |paths| - 1;
      assert paths[..n][..k] == paths[..k];
      FailureSticks(paths[..n], read, k);
    } else {
      assert paths[..k] == paths;
    }
  }

  /** The load succeeds exactly when no path fails other than by being missing. */
  lemma {:induction false} ReadDocumentsSucceeds(paths: seq<string>, read: string -> ReadOutcome)
    ensures ReadDocuments(paths, read).Success? <==> forall i :: 0 <= i < |paths| ==> !read(paths[i]).ReadFailed?
    decreases |paths|
  {
    if paths != [] {
      var n := |paths| - 1;
      ReadDocumentsSucceeds(paths[..n], read);
      assert forall i :: 0 <= i < n ==> paths[..n][i] == paths[i];
    }
  }

  /** A failed load reports the error of the first path that failed. */
  lemma {:induction false} ReadDocumentsFailure(paths: seq<string>, read: string -> ReadOutcome) returns (k: nat)
    requires ReadDocuments(paths, read).Failure?
    ensures k < |paths| && read(paths[k]) == ReadFailed(ReadDocuments(paths, read).error)
    ensures forall i :: 0 <= i < k ==> !read(paths[i]).ReadFailed?
    decreases |paths|
  {
    var n := |paths| - 1;
    if ReadDocuments(paths[..n], read).Failure? {
      k := ReadDocumentsFailure(paths[..n], read);
      assert paths[..n][k] == paths[k];
      assert forall i :: 0 <= i < k ==> paths[..n][i] == paths[i];
    } else {
      k := n;
      ReadDocumentsSucceeds(paths[..n], read);
      assert forall i :: 0 <= i < n ==> paths[..n][i] == paths[i];
    }
  }

  /**
   * A successful load holds one document per readable path, in path order:
   * the `j`-th document is the file at the `j`-th readable position, with
   * that position as its id and the file's text as its content.
   */
  lemma {:induction false} ReadDocumentsContent(paths: seq<string>, read: string -> ReadOutcome)
    requires ReadDocuments(paths, read).Success?
    ensures var docs, idx := ReadDocuments(paths, read).value, ReadIndices(paths, read);
      && |docs| == |idx|
      && forall j :: 0 <= j < |docs| ==> docs[j] == FileDocument(idx[j], paths[idx[j]], read(paths[idx[j]]).text)
    decreases |paths|
  {
    if paths != [] {
      var n := |paths| - 1;
      ReadDocumentsContent(paths[..n], read);
      assert forall i :: 0 <= i < n ==> paths[..n][i] == paths[i];
    }
  }

  /** The documents of a successful load have pairwise distinct ids. */
  lemma DistinctIds(paths: seq<string>, read: string -> ReadOutcome)
    requires ReadDocuments(paths, read).Success?
    ensures var docs := ReadDocuments(paths, read).value;
      forall j, k :: 0 <= j < k < |docs| ==> docs[j].documentId != docs[k].documentId
  {
    var docs, idx := ReadDocuments(paths, read).value, ReadIndices(paths, read);
    ReadDocumentsContent(paths, read);
    forall j, k | 0 <= j < k < |docs| ensures docs[j].documentId != docs[k].documentId {
      if docs[j].documentId == docs[k].documentId {
        assert Decimal(idx[j]) == docs[j].documentId[|DocumentIdPrefix|..];
        assert Decimal(idx[k]) == docs[k].documentId[|DocumentIdPrefix|..];
        DecimalInjective(idx[j], idx[k]);
      }
    }
  }

  /**
   * `load_from_local_files`: reads the paths in order, appending a document
   * for each file read, skipping missing files, and giving up with the error
   * of any other failed read.
   */
  method LoadFromLocalFiles(filePaths: seq<string>, read: string -> ReadOutcome) returns (r: Result<seq<Document>, string>)
    ensures r == ReadDocuments(filePaths, read)
  {
    var documents := [];
    var i := 0;
    while i < |filePaths|
      invariant 0 <= i <= |filePaths|
      invariant ReadDocuments(filePaths[..i], read) == Success(documents)
    {
      assert filePaths[..i + 1][..i] == filePaths[..i];
      match read(filePaths[i]) {
        case Contents(text) =>
          documents := documents + [FileDocument(i, filePaths[i], text)];
        case FileNotFound =>
        case ReadFailed(e) =>
          FailureSticks(filePaths, read, i + 1);
          return Failure(e);
      }
      i := i + 1;
    }
    assert filePaths[..i] == filePaths;
    return Success(documents);
  }
}
