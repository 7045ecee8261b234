/** POSIX `os.path.join` of two components, `os.path.basename` and `os.path.dirname`. */
module Paths {

  /** `os.path.join(dir, name)`: an absolute `name` wins; otherwise one `/` separates the two. */
  function Join(dir: string, name: string): (p: string)
    ensures name != [] && name[0] != '/' ==> dir <= p && |p| > |dir|
  {
    if name != [] && name[0] == '/' then name
    else if dir == [] || dir[|dir| - 1] == '/' then dir + name
    else dir + "/" + name
  }

  /** `os.path.basename(p)`: the text after the last `/`. */
  function BaseName(p: string): (b: string)
    ensures '/' !in b
    ensures |b| <= |p| && b == p[|p| - |b|..]
  {
    if p == [] || p[|p| - 1] == '/' then []
    else BaseName(p[..|p| - 1]) + [p[|p| - 1]]
  }

  /** After a slash (or at the start), a slash-free name is the base name. */
  lemma {:induction false} BaseNameAfterSlash(prefix: string, name: string)
    requires prefix == [] || prefix[|prefix| - 1] == '/'
    requires '/' !in name
    ensures BaseName(prefix + name) == name
    decreases |name|
  {
    if name == [] {
      assert prefix + name == prefix;
    } else {
      var p, n := prefix + name, |name| - 1;
      var init := name[..n];
      assert name == init + [name[n]];
      assert p == (prefix + init) + [name[n]];
      BaseNameAfterSlash(prefix, init);
    }
  }

  /** Joining a slash-free name to any directory makes that name the last component. */
  lemma BaseNameOfJoin(dir: string, name: string)
    requires '/' !in name
    ensures BaseName(Join(dir, name)) == name
  {
    if dir == [] || dir[|dir| - 1] == '/' {
      BaseNameAfterSlash(dir, name);
    } else {
      assert dir + "/" + name == (dir + "/") + name;
      BaseNameAfterSlash(dir + "/", name);
    }
  }

  predicate AllSlashes(s: string) {
    forall i :: 0 <= i < |s| ==> s[i] == '/'
  }

  /** `s.rstrip('/')`. */
  function StripSlashes(s: string): string {
    if s != [] && s[|s| - 1] == '/' then StripSlashes(s[..|s| - 1]) else s
  }

  /**
    `os.path.dirname(p)`: everything up to the last `/`, without its trailing slashes unless
    it consists of slashes only (the root).
   */
  function DirName(p: string): string {
    var head := p[..|p| - |BaseName(p)|];
    if head != [] && !AllSlashes(head) then StripSlashes(head) else head
  }

  /**
    The directory part of a joined path is the directory that was joined: a slash-free name
    joined to a directory without a trailing slash, or to no directory at all.
   */
  lemma DirNameOfJoin(dir: string, name: string)
    requires name != [] && '/' !in name
    requires dir == [] || dir[|dir| - 1] != '/'
    ensures DirName(Join(dir, name)) == dir
  {
    BaseNameOfJoin(dir, name);
    var p := Join(dir, name);
    if dir == [] {
      assert p[..|p| - |name|] == [];
    } else {
      assert p == (dir + "/") + name;
      var head := p[..|p| - |name|];
      assert head == dir + "/";
      assert head[..|head| - 1] == dir;
      assert StripSlashes(dir) == dir;
      assert StripSlashes(head) == StripSlashes(dir);
      assert !AllSlashes(head) by {
        assert head[|dir| - 1] == dir[|dir| - 1];
      }
    }
  }
}
