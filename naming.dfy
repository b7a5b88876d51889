/** How a data file's name decides its experiment type, and `mod_filename`, which tags the output
    path with that type. */
module Naming {
  import opened TabText

  /** Cyclic voltammetry, chronoamperometry, or anything else. */
  datatype Kind = CV | CA | Other

  /** The tests `'CV' in filename` and then `'CA' in filename`, in that order of precedence.  The
      line handler and `mod_filename` both branch this way. */
  function Classify(filename: string): (k: Kind)
    ensures k == CV <==> Contains(filename, "CV")
    ensures k == CA <==> !Contains(filename, "CV") && Contains(filename, "CA")
    ensures k == Other <==> !Contains(filename, "CV") && !Contains(filename, "CA")
  {
    if Contains(filename, "CV") then CV
    else if Contains(filename, "CA") then CA
    else Other
  }

  /** The tag appended to an output file name of each kind. */
  function Tag(k: Kind): string
  {
    match k
    case CV => "CV"
    case CA => "CA"
    case Other => ""
  }

  /** POSIX `os.path.join(path, name)`: an absolute `name` replaces `path`; otherwise a `/` is put
      between them unless `path` is empty or already ends in one. */
  function PathJoin(path: string, name: string): (r: string)
    ensures |name| <= |r| && r[|r| - |name|..] == name
    ensures |name| > 0 && name[0] == '/' ==> r == name
    ensures !(|name| > 0 && name[0] == '/') ==> |path| <= |r| && r[..|path|] == path
    ensures !(|name| > 0 && name[0] == '/') && path != [] && path[|path| - 1] != '/' ==>
      r == path + "/" + name
    ensures !(|name| > 0 && name[0] == '/') && (path == [] || path[|path| - 1] == '/') ==>
      r == path + name
  {
    if |name| > 0 && name[0] == '/' then name
    else if path == [] || path[|path| - 1] == '/' then path + name
    else path + "/" + name
  }

  /** `mod_filename`: the joined output path followed by the file's kind tag, which is always a
      piece of the file name itself; `CV` wins over `CA`, and a name with neither gets no tag. */
  function ModFilename(path: string, filename: string): (r: string)
    ensures var j := PathJoin(path, filename);
      |j| <= |r| && r[..|j|] == j &&
      var tag := r[|j|..];
      Contains(filename, tag) &&
      (Contains(filename, "CV") ==> tag == "CV") &&
      (!Contains(filename, "CV") && Contains(filename, "CA") ==> tag == "CA") &&
      (!Contains(filename, "CV") && !Contains(filename, "CA") ==> tag == "")
  {
    var j := PathJoin(path, filename);
    var k := Classify(filename);
    EmptyContained(filename);
    assert (j + Tag(k))[|j|..] == Tag(k);
    j + Tag(k)
  }

  /** The empty string occurs in every string. */
  lemma EmptyContained(s: string)
    ensures Contains(s, "")
  {
    assert s[..0] == "";
  }
}
