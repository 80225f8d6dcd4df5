/** Where cache files live: `get_cache_name` of src/config.rs. */
module Config {
  import opened Base
  import opened Store

  const CacheSubdir := ".cache/jadwal-shalat/"

  /** `PathBuf::push` of a relative path on Unix: a separator goes in
      between unless the base is empty or already ends with one. */
  function Push(base: string, rel: string): (r: string)
    ensures |base| + |rel| <= |r| <= |base| + 1 + |rel|
    ensures r[..|base|] == base && r[|r| - |rel|..] == rel
    ensures |r| == |base| + 1 + |rel| <==> base != [] && base[|base| - 1] != '/'
    ensures |r| == |base| + 1 + |rel| ==> r[|base|] == '/'
  {
    if base == [] || base[|base| - 1] == '/' then base + rel else base + "/" + rel
  }

  /** The cache directory under a home directory: the home directory, a
      `/` exactly when the home directory is not empty and does not already
      end with one, then `.cache/jadwal-shalat/`. */
  function CacheDir(home: string): (dir: string)
    ensures |home| + |CacheSubdir| <= |dir| <= |home| + 1 + |CacheSubdir|
    ensures dir[..|home|] == home
    ensures dir[|dir| - |CacheSubdir|..] == CacheSubdir
    ensures |dir| == |home| + 1 + |CacheSubdir| <==> home != [] && home[|home| - 1] != '/'
    ensures |dir| == |home| + 1 + |CacheSubdir| ==> dir[|home|] == '/'
  {
    Push(home, CacheSubdir)
  }

  /** `get_cache_name(name)`: panics without a home directory; otherwise
      tries to create the cache directory, ignores the result, and returns
      the directory followed directly by `name`. */
  method GetCacheName(disk: Disk, home: Option<string>, name: string) returns (r: Outcome<string>)
    modifies disk`dirs
    ensures home.None? ==> r.Panic? && disk.dirs == old(disk.dirs)
    ensures home.Some? ==> r == Done(CacheDir(home.value) + name)
    ensures home.Some? ==>
      disk.dirs == if disk.writable then old(disk.dirs) + {CacheDir(home.value)} else old(disk.dirs)
  {
    if home.None? {
      return Panic("called `Option::unwrap()` on a `None` value");
    }
    var dir := CacheDir(home.value);
    var _ := disk.CreateDirAll(dir);
    r := Done(dir + name);
  }

  /** The returned path is the cache directory followed by the name, so it
      ends with the name and two names give the same path only if they are
      the same name. */
  lemma CachePathInjective(home: string, name1: string, name2: string)
    ensures (CacheDir(home) + name1)[|CacheDir(home)|..] == name1
    ensures CacheDir(home) + name1 == CacheDir(home) + name2 <==> name1 == name2
  {
    var dir := CacheDir(home);
    if dir + name1 == dir + name2 {
      assert (dir + name1)[|dir|..] == name1;
      assert (dir + name2)[|dir|..] == name2;
    }
  }
}
