/**
 The server's file-backed history store (server.js): `saveHistoryToFile`
 overwrites the file at a path with a document and reports `true`;
 `readHistoryFromFile` gives `{}` for a path with no file and the stored
 document otherwise. The file system is a map from path to the document
 stored there; the JSON text in between is not modelled.
 */
module Server {
  import opened History

  /** The files the server can see, by path. */
  class FileSystem {
    var files: map<string, Document>

    constructor (initial: map<string, Document>)
      ensures files == initial
    {
      files := initial;
    }

    /** A file exists at `path` (the `existsSync` test). */
    predicate Exists(path: string)
      reads this
    {
      path in files
    }

    /** The document read from `path`, or the empty document when no file is there. */
    function ReadHistoryFromFile(path: string): (doc: Document)
      reads this
      ensures !Exists(path) ==> doc == EmptyDocument
      ensures Exists(path) ==> doc == files[path]
    {
      if !Exists(path) then EmptyDocument else files[path]
    }

    /** Overwrites the file at `path` with `data` and reports success. */
    method SaveHistoryToFile(path: string, data: Document) returns (ok: bool)
      modifies this
      ensures ok
      ensures files == old(files)[path := data]
      ensures Exists(path) && ReadHistoryFromFile(path) == data
      ensures forall q :: q != path ==>
                Exists(q) == old(Exists(q)) && ReadHistoryFromFile(q) == old(ReadHistoryFromFile(q))
    {
      files := files[path := data];
      ok := true;
    }
  }

  /** Saving a document to a path and then reading that path: the save
      reports `true`, a file then exists there, and the read gives back the
      document saved, whatever files were there before. */
  method SaveThenRead(initial: map<string, Document>, path: string, data: Document)
    returns (ok: bool, exists': bool, back: Document)
    ensures ok && exists'
    ensures back == data
  {
    var disk := new FileSystem(initial);
    ok := disk.SaveHistoryToFile(path, data);
    exists' := disk.Exists(path);
    back := disk.ReadHistoryFromFile(path);
  }

  /** Two saves to one path: the later document replaces the earlier one,
      and a file at another path keeps its content. */
  method SaveTwice(initial: map<string, Document>, path: string, other: string, first: Document, second: Document)
    returns (back: Document, otherBack: Document)
    requires other != path
    ensures back == second
    ensures otherBack == (if other in initial then initial[other] else EmptyDocument)
  {
    var disk := new FileSystem(initial);
    var ok := disk.SaveHistoryToFile(path, first);
    ok := disk.SaveHistoryToFile(path, second);
    back := disk.ReadHistoryFromFile(path);
    otherBack := disk.ReadHistoryFromFile(other);
  }

  /** Reading a path with no file gives `{}` and leaves no file behind. */
  method ReadMissing(initial: map<string, Document>, path: string)
    returns (back: Document, existsAfter: bool)
    requires path !in initial
    ensures back == EmptyDocument
    ensures !existsAfter
  {
    var disk := new FileSystem(initial);
    back := disk.ReadHistoryFromFile(path);
    existsAfter := disk.Exists(path);
  }
}
