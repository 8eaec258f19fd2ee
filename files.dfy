/** The file system as the core sees it: a map from path to the records of a
    jsonlines artifact. A `.gz` sibling holds the same records as its original;
    the bytes of gzip and of JSON are not modelled. */
module Files {
  import opened Wrappers
  import opened Text

  /** One line of an artifact; of its fields only `trackId` is ever read. */
  datatype Entry = Entry(trackId: Option<int>)

  type FileSystem = map<string, seq<Entry>>

  /** `shutil.copy2(src, dst)`: overwrites `dst` with the records of `src`;
      a missing `src` raises FileNotFoundError, and copying a file onto itself
      raises SameFileError. */
  function Copy(fs: FileSystem, src: string, dst: string): (r: Result<FileSystem>)
    ensures r.Err? <==> src !in fs || src == dst
    ensures src !in fs ==> r == Err(FileNotFoundError)
    ensures src in fs && src == dst ==> r == Err(SameFileError)
    ensures r.Ok? ==> dst in r.value && r.value[dst] == fs[src]
    ensures r.Ok? ==> r.value.Keys == fs.Keys + {dst}
    ensures r.Ok? ==> forall p :: p in fs && p != dst ==> r.value[p] == fs[p]
  {
    if src !in fs then Err(FileNotFoundError)
    else if src == dst then Err(SameFileError)
    else Ok(fs[dst := fs[src]])
  }

  /** `os.path.join(base, name)`: an absolute `name` replaces `base`; otherwise
      `name` follows `base`, separated by "/" unless `base` is empty or already
      ends with one. */
  function PathJoin(base: string, name: string): (p: string)
    ensures EndsWith(p, name)
    ensures StartsWith(name, "/") ==> p == name
    ensures !StartsWith(name, "/") ==> StartsWith(p, base) && |p| <= |base| + 1 + |name|
    ensures !StartsWith(name, "/") && EndsWith(base, "/") ==> p == base + name
    ensures !StartsWith(name, "/") && base != "" && !EndsWith(base, "/") ==> p == base + "/" + name
    ensures !StartsWith(name, "/") && base == "" ==> p == name
  {
    if StartsWith(name, "/") then name
    else if base == "" || EndsWith(base, "/") then base + name
    else base + "/" + name
  }
}
