/**
  The forwarding facade over an SCP session: local paths that are not absolute are
  resolved against the application's documents directory before use.
 */
module SCPTransfer {
  import opened Strings

  predicate IsAbsolute(path: string)
  {
    StartsWith(path, "/")
  }

  /**
    `NSString.appendingPathComponent`: joins with exactly one separator; an empty
    component leaves the directory as it is.
   */
  function AppendingPathComponent(dir: string, name: string): (r: string)
    ensures StartsWith(r, dir)
    ensures name != [] && dir != [] && dir[|dir| - 1] != '/' ==> r == dir + "/" + name
  {
    if name == [] then dir
    else if dir == [] then name
    else if dir[|dir| - 1] == '/' then dir + name
    else dir + "/" + name
  }

  /**
    `documentsPath(for:)`: `searchPaths` is what `NSSearchPathForDirectoriesInDomains`
    returns; the code indexes its first element, which traps on an empty list.
   */
  function DocumentsPath(searchPaths: seq<string>, fileName: string): (r: string)
    requires |searchPaths| > 0
    ensures StartsWith(r, searchPaths[0])
  {
    AppendingPathComponent(searchPaths[0], fileName)
  }

  /** `resolvePath(_:)`: a path beginning with "/" is kept, any other is joined onto the documents directory. */
  function ResolvePath(searchPaths: seq<string>, path: string): (r: string)
    requires IsAbsolute(path) || |searchPaths| > 0
    ensures IsAbsolute(path) ==> r == path
    ensures !IsAbsolute(path) ==> StartsWith(r, searchPaths[0])
  {
    if IsAbsolute(path) then path else DocumentsPath(searchPaths, path)
  }

  /** A relative file name ends up as the last component below the documents directory. */
  lemma ResolveRelativeName(searchPaths: seq<string>, path: string)
    requires |searchPaths| > 0 && !IsAbsolute(path) && path != []
    requires var docs := searchPaths[0]; docs != [] && docs[|docs| - 1] != '/'
    ensures ResolvePath(searchPaths, path) == searchPaths[0] + "/" + path
  {
  }

  /** With an absolute documents directory every resolved path is absolute, so resolving twice changes nothing. */
  lemma ResolvePathIdempotent(searchPaths: seq<string>, path: string)
    requires |searchPaths| > 0 && IsAbsolute(searchPaths[0])
    ensures IsAbsolute(ResolvePath(searchPaths, path))
    ensures ResolvePath(searchPaths, ResolvePath(searchPaths, path)) == ResolvePath(searchPaths, path)
  {
    var r := ResolvePath(searchPaths, path);
    if !IsAbsolute(path) {
      assert r[..|searchPaths[0]|] == searchPaths[0];
      assert r[..1] == searchPaths[0][..1];
    }
  }

  /** The request an `SCPTransfer` call hands to its SCP session. */
  datatype Forwarded =
    | UploadRequest(localPath: string, remotePath: string)
    | DownloadRequest(remotePath: string, localPath: string)

  /** `upload(localPath:remotePath:completion:progress:)`. */
  function Upload(searchPaths: seq<string>, localPath: string, remotePath: string): (f: Forwarded)
    requires IsAbsolute(localPath) || |searchPaths| > 0
    ensures f.UploadRequest? && f.remotePath == remotePath
    ensures IsAbsolute(localPath) ==> f.localPath == localPath
    ensures !IsAbsolute(localPath) ==> f.localPath == DocumentsPath(searchPaths, localPath)
  {
    UploadRequest(ResolvePath(searchPaths, localPath), remotePath)
  }

  /** `download(remotePath:localPath:completion:progress:)`. */
  function Download(searchPaths: seq<string>, remotePath: string, localPath: string): (f: Forwarded)
    requires IsAbsolute(localPath) || |searchPaths| > 0
    ensures f.DownloadRequest? && f.remotePath == remotePath
    ensures IsAbsolute(localPath) ==> f.localPath == localPath
    ensures !IsAbsolute(localPath) ==> f.localPath == DocumentsPath(searchPaths, localPath)
  {
    DownloadRequest(remotePath, ResolvePath(searchPaths, localPath))
  }
}
