/** The dump file as the plugin drives it through stdio: a `FILE *` opened
    with mode "wb", written one 64-bit word at a time at its current
    position, repositioned with `fseek` and closed with `fclose`. Offsets
    are counted in words, since the plugin only ever writes whole words. */
module DumpFile {
  import opened Wrappers
  import opened Words

  /** An open (or closed) stream: the path it was opened on, the words the
      file holds, and the position the next `fwrite` writes at. */
  datatype Stream = Stream(path: string, words: seq<u64>, pos: nat, isOpen: bool)

  /** `fopen(path, "wb")` on a path that can be opened: the file is created
      or truncated to zero length, positioned at its start. */
  function Open(path: string): Stream
  {
    Stream(path, [], 0, true)
  }

  /** `fopen(path, "wb")` where `writable` is the set of paths the host can
      open for writing; NULL (`None`) for any other path and for a missing
      path (the NULL `parts[1]` of an option that has no '='). */
  function FOpen(path: Option<string>, writable: set<string>): (f: Option<Stream>)
    ensures f.Some? <==> path.Some? && path.value in writable
    ensures f.Some? ==> f.value.path == path.value && f.value.words == [] && f.value.pos == 0 && f.value.isOpen
  {
    if path.Some? && path.value in writable then Some(Open(path.value)) else None
  }

  /** `fwrite(&w, 8, 1, f)`: the word at the current position is replaced
      (or the file grows by one word at its end) and the position advances. */
  function Write(f: Stream, w: u64): (r: Stream)
    requires f.isOpen && f.pos <= |f.words|
    ensures r.path == f.path && r.isOpen && r.pos == f.pos + 1
    ensures |r.words| == if f.pos < |f.words| then |f.words| else |f.words| + 1
    ensures r.words[f.pos] == w
    ensures forall i | 0 <= i < |f.words| && i != f.pos :: r.words[i] == f.words[i]
    ensures f.pos == |f.words| ==> r.words == f.words + [w]
    ensures f.pos == 0 < |f.words| ==> r.words == [w] + f.words[1..]
  {
    var rest := if f.pos < |f.words| then f.words[f.pos + 1..] else [];
    f.(words := f.words[..f.pos] + [w] + rest, pos := f.pos + 1)
  }

  /** `fseek(f, offset, SEEK_SET)`, for an offset inside the file. */
  function Seek(f: Stream, offset: nat): Stream
    requires offset <= |f.words|
  {
    f.(pos := offset)
  }

  /** `fclose(f)`: the contents stay as written. */
  function Close(f: Stream): Stream
  {
    f.(isOpen := false)
  }
}
