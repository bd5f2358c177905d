/** A small file system. Every state of the files between two operations is kept in the trail, so that a
    stop at any moment leaves one of them. */
module FileSystem {
  type Path = string
  type Bytes = seq<bv8>
  type Files = map<Path, Bytes>
  type Trail = seq<Files>

  class Disk {
    var files: Files
    ghost var trail: Trail

    constructor (files: Files)
      ensures this.files == files && trail == [files]
    {
      this.files, trail := files, [files];
    }

    /** The files change in one indivisible operation. */
    method Put(files': Files)
      modifies this
      ensures files == files' && trail == old(trail) + [files']
    {
      files, trail := files', trail + [files'];
    }

    method Write(path: Path, content: Bytes)
      modifies this
      ensures files == old(files)[path := content] && trail == old(trail) + [files]
    {
      Put(files[path := content]);
    }

    method Remove(path: Path, ok: bool)
      modifies this
      ensures files == if ok then old(files) - {path} else old(files)
      ensures trail == old(trail) + [files]
    {
      Put(if ok then files - {path} else files);
    }

    /** The destination holds the source's bytes in the same moment the source is gone. */
    method Rename(from: Path, to: Path, ok: bool)
      requires from in files && from != to
      modifies this
      ensures files == if ok then old(files)[to := old(files)[from]] - {from} else old(files)
      ensures trail == old(trail) + [files]
    {
      Put(if ok then files[to := files[from]] - {from} else files);
    }
  }
}
