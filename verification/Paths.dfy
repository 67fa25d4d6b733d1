// Object paths of the repository layout.
module Paths {
  import opened Codecs

  function BlobPath(hash: string): string {
    "blobs/" + (if |hash| >= 2 then hash[..2] else "xx") + "/" + hash
  }

  function SnapshotPath(id: string): string {
    "snapshots/" + id
  }

  // What listing a directory returns: everything below it.
  predicate Under(dir: string, path: string) {
    dir + "/" <= path
  }

  predicate Separator(c: char) {
    c == '/' || c == '\\'
  }

  // The part after the last separator.
  function LastComponent(path: string): string {
    if path == [] then []
    else if Separator(path[|path| - 1]) then []
    else LastComponent(path[..|path| - 1]) + [path[|path| - 1]]
  }

  lemma {:induction false} LastComponentOf(dir: string, name: string)
    requires SlashFree(name)
    ensures LastComponent(dir + "/" + name) == name
  {
    var path := dir + "/" + name;
    if name == [] {
    } else {
      var front := name[..|name| - 1];
      assert path[..|path| - 1] == dir + "/" + front;
      LastComponentOf(dir, front);
      assert front + [name[|name| - 1]] == name;
    }
  }

  // The file name inverts the blob path, so distinct hashes get distinct paths.
  lemma BlobPathInverse(hash: string)
    requires SlashFree(hash)
    ensures LastComponent(BlobPath(hash)) == hash
  {
    LastComponentOf("blobs/" + (if |hash| >= 2 then hash[..2] else "xx"), hash);
  }

  lemma PathsApart(hash: string, id: string)
    ensures Under("blobs", BlobPath(hash)) && !Under("snapshots", BlobPath(hash))
    ensures Under("snapshots", SnapshotPath(id)) && !Under("blobs", SnapshotPath(id))
    ensures BlobPath(hash) != SnapshotPath(id)
  {
    assert BlobPath(hash)[0] == 'b' && SnapshotPath(id)[0] == 's';
    assert "blobs/" <= BlobPath(hash);
  }

  lemma DirectoriesApart(path: string)
    ensures !(Under("blobs", path) && Under("snapshots", path))
  {
    assert ("blobs" + "/")[0] == 'b' && ("snapshots" + "/")[0] == 's';
    if Under("blobs", path) {
      assert path[0] == 'b';
    }
  }

  lemma SnapshotPathInjective(a: string, b: string)
    requires SnapshotPath(a) == SnapshotPath(b)
    ensures a == b
  {
    assert SnapshotPath(a)[|"snapshots/"|..] == a;
    assert SnapshotPath(b)[|"snapshots/"|..] == b;
  }

  // Blobs lie in directories of the first two characters of their digests.
  lemma PathsRead(hash: string, id: string)
    requires |hash| >= 2
    ensures BlobPath(hash) == "blobs/" + [hash[0], hash[1]] + "/" + hash
    ensures SnapshotPath(id) == "snapshots/" + id
    ensures Under("snapshots", "snapshots/" + id) && !Under("snapshots", "snapshots-old/" + id)
  {
    assert hash[..2] == [hash[0], hash[1]];
    assert ("snapshots-old/" + id)[9] == '-' && ("snapshots" + "/")[9] == '/';
  }
}
