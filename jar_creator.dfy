/**
 * The bookkeeping of the Greenfoot jar exporter (greenfoot/util/JarCreator.java):
 * which files and directories are left out of the jar, the normalised jar name
 * and the manifest's class path.  Files are named by strings (a directory by
 * its name and its canonical path, an extra jar by its file name); writing the
 * jar and copying the libraries are outside the model.
 */
module JarCreator {
  import opened Strings

  const SourceSuffix: string := ".java"
  const ContextSuffix: string := ".ctxt"
  const PackageFilePrefix: string := "bluej.pk"
  const PackageFileBackup: string := "bluej.pkh"
  const JarSuffix: string := ".jar"
  /** The name of the directory that holds the project's library jars. */
  const ProjectLibDirName: string := "+libs"
  /** The directory name always left out of the jar. */
  const VersionControlDir: string := "CVS"
  const ManifestVersion: string := "1.0"

  /** The jar name with ".jar" appended unless it already ends with it. */
  function NormalizeJarName(name: string): (r: string)
    ensures EndsWith(r, JarSuffix)
    ensures StartsWith(r, name)
    ensures |r| <= |name| + |JarSuffix|
    ensures EndsWith(name, JarSuffix) ==> r == name
  {
    if EndsWith(name, JarSuffix) then name
    else
      assert (name + JarSuffix)[|name|..] == JarSuffix;
      assert (name + JarSuffix)[..|name|] == name;
      name + JarSuffix
  }

  /** Normalising a normalised name changes nothing. */
  lemma NormalizeJarNameIdempotent(name: string)
    ensures NormalizeJarName(NormalizeJarName(name)) == NormalizeJarName(name)
  {
  }

  /** The manifest class path: " " and the name of each extra jar, in order. */
  function ClassPath(jars: seq<string>): (r: string)
    ensures |jars| == 0 <==> r == ""
    decreases |jars|
  {
    if |jars| == 0 then ""
    else ClassPath(jars[..|jars| - 1]) + " " + jars[|jars| - 1]
  }

  /** The class path of two lists of jars is the two class paths one after the other. */
  lemma {:induction false} ClassPathAppend(a: seq<string>, b: seq<string>)
    ensures ClassPath(a + b) == ClassPath(a) + ClassPath(b)
    decreases |b|
  {
    if |b| > 0 {
      var b' := b[..|b| - 1];
      assert (a + b)[..|a + b| - 1] == a + b';
      ClassPathAppend(a, b');
    } else {
      assert a + b == a;
    }
  }

  /** The characters of s up to the first space. */
  function Word(s: string): (r: string)
    ensures StartsWith(s, r) && ' ' !in r
    ensures |r| < |s| ==> s[|r|] == ' '
  {
    if |s| == 0 || s[0] == ' ' then "" else [s[0]] + Word(s[1..])
  }

  /** Reads a class path back into the list of jar names it was built from. */
  function Entries(s: string): (r: seq<string>)
    decreases |s|
  {
    if |s| == 0 then []
    else
      var w := Word(s[1..]);
      [w] + Entries(s[1 + |w|..])
  }

  lemma {:induction false} WordOfEntry(name: string, rest: string)
    requires ' ' !in name
    requires rest == "" || rest[0] == ' '
    ensures Word(name + rest) == name
    decreases |name|
  {
    var s := name + rest;
    if |name| > 0 {
      assert s[0] == name[0] && name[0] != ' ';
      assert s[1..] == name[1..] + rest;
      assert ' ' !in name[1..];
      WordOfEntry(name[1..], rest);
      assert Word(s) == [name[0]] + name[1..];
      assert [name[0]] + name[1..] == name;
    } else {
      assert s == rest;
    }
  }

  /** Jar names without spaces are read back from the class path unchanged. */
  lemma {:induction false} ClassPathRoundTrip(jars: seq<string>)
    requires forall i :: 0 <= i < |jars| ==> ' ' !in jars[i]
    ensures Entries(ClassPath(jars)) == jars
    decreases |jars|
  {
    if |jars| > 0 {
      var tail := jars[1..];
      ClassPathAppend([jars[0]], tail);
      assert [jars[0]] + tail == jars;
      assert ClassPath([jars[0]]) == " " + jars[0] by {
        assert [jars[0]][..0] == [];
      }
      var s := ClassPath(jars);
      assert s == " " + jars[0] + ClassPath(tail);
      var rest := ClassPath(tail);
      assert rest == "" || rest[0] == ' ' by {
        if |tail| > 0 {
          ClassPathAppend([tail[0]], tail[1..]);
          assert [tail[0]] + tail[1..] == tail;
          assert [tail[0]][..0] == [];
        }
      }
      assert s[1..] == jars[0] + rest;
      WordOfEntry(jars[0], rest);
      assert s[1 + |jars[0]|..] == rest;
      ClassPathRoundTrip(tail);
    }
  }

  /** Reading a class path that starts with " " and a name without spaces gives that name first. */
  lemma EntriesStep(name: string, rest: string)
    requires ' ' !in name
    requires rest == "" || rest[0] == ' '
    ensures Entries(" " + name + rest) == [name] + Entries(rest)
  {
    var s := " " + name + rest;
    assert s[1..] == name + rest;
    WordOfEntry(name, rest);
    assert s[1 + |name|..] == rest;
  }

  /** A jar name with a space splits into two class-path entries. */
  lemma ClassPathSplitsSpacedName(first: string, second: string)
    requires ' ' !in first && ' ' !in second
    ensures Entries(ClassPath([first + " " + second])) == [first, second]
  {
    var name := first + " " + second;
    assert [name][..0] == [];
    assert ClassPath([name]) == " " + first + (" " + second + "");
    EntriesStep(first, " " + second + "");
    EntriesStep(second, "");
  }


  /** The main attributes the exporter writes to the manifest. */
  datatype Manifest = Manifest(version: string, mainClass: Option<string>, classPath: string)

  class JarCreator {
    var includeSource: bool
    var includeMetaFiles: bool
    var mainClass: Option<string>
    const exportDirPath: string
    var jarName: string
    var extraJars: seq<string>
    var dirs: seq<string>
    var skipDirs: seq<string>
    var skipFiles: seq<string>
    var manifest: Option<Manifest>

    /** The exporter for a writable export directory. */
    constructor (exportDirPath: string, jarName: string)
      ensures this.exportDirPath == exportDirPath && this.jarName == jarName
      ensures skipDirs == [VersionControlDir, exportDirPath]
      ensures skipFiles == [] && extraJars == [] && dirs == []
      ensures !includeSource && !includeMetaFiles && mainClass == None && manifest == None
    {
      this.exportDirPath := exportDirPath;
      this.jarName := jarName;
      skipDirs := [VersionControlDir, exportDirPath];
      skipFiles := [];
      extraJars := [];
      dirs := [];
      includeSource := false;
      includeMetaFiles := false;
      mainClass := None;
      manifest := None;
    }

    /** The constructor's check: no exporter for a directory that cannot be written. */
    static method New(exportDirPath: string, writable: bool, jarName: string) returns (r: Option<JarCreator>)
      ensures r.Some? <==> writable
      ensures r.Some? ==> (fresh(r.value) && r.value.skipDirs == [VersionControlDir, exportDirPath]
                           && r.value.jarName == jarName && r.value.skipFiles == [])
    {
      if !writable {
        return None;
      }
      var c := new JarCreator(exportDirPath, jarName);
      return Some(c);
    }

    /** Whether a file of this name is left out of the jar. */
    predicate FileSkipped(fileName: string)
      reads this
    {
      if fileName == PackageFileBackup then true
      else if exists i :: 0 <= i < |skipFiles| && EndsWith(fileName, skipFiles[i]) then true
      else if EndsWith(fileName, SourceSuffix) then !includeSource
      else if StartsWith(fileName, PackageFilePrefix) || EndsWith(fileName, ContextSuffix) then !includeMetaFiles
      else false
    }

    /** Whether a directory of this name and canonical path is left out of the jar. */
    predicate DirSkipped(dirName: string, canonicalPath: string)
      reads this
    {
      if dirName == ProjectLibDirName then !includeMetaFiles
      else exists i :: 0 <= i < |skipDirs| && EndsWith(canonicalPath, skipDirs[i])
    }

    method SkipFile(fileName: string, skipSource: bool) returns (r: bool)
      ensures r == FileSkipped(fileName)
    {
      if fileName == PackageFileBackup {
        return true;
      }
      var i := 0;
      while i < |skipFiles|
        invariant 0 <= i <= |skipFiles|
        invariant forall k :: 0 <= k < i ==> !EndsWith(fileName, skipFiles[k])
      {
        if EndsWith(fileName, skipFiles[i]) {
          return true;
        }
        i := i + 1;
      }
      if EndsWith(fileName, SourceSuffix) {
        return !includeSource;
      }
      if StartsWith(fileName, PackageFilePrefix) || EndsWith(fileName, ContextSuffix) {
        return !includeMetaFiles;
      }
      return false;
    }

    method SkipDir(dirName: string, canonicalPath: string) returns (r: bool)
      ensures r == DirSkipped(dirName, canonicalPath)
    {
      if dirName == ProjectLibDirName {
        return !includeMetaFiles;
      }
      var i := 0;
      while i < |skipDirs|
        invariant 0 <= i <= |skipDirs|
        invariant forall k :: 0 <= k < i ==> !EndsWith(canonicalPath, skipDirs[k])
      {
        if EndsWith(canonicalPath, skipDirs[i]) {
          return true;
        }
        i := i + 1;
      }
      return false;
    }

    /** The backup package file is left out whatever the settings. */
    lemma BackupFileAlwaysSkipped()
      ensures FileSkipped(PackageFileBackup)
    {
    }

    /** A file ending with a registered suffix is left out whatever the settings. */
    lemma RegisteredSuffixSkipped(fileName: string, i: int)
      requires 0 <= i < |skipFiles| && EndsWith(fileName, skipFiles[i])
      ensures FileSkipped(fileName)
    {
    }

    /** Outside the backup file and the registered suffixes, a source file is kept exactly when sources are included. */
    lemma SourceFileRule(fileName: string)
      requires fileName != PackageFileBackup
      requires forall i :: 0 <= i < |skipFiles| ==> !EndsWith(fileName, skipFiles[i])
      requires EndsWith(fileName, SourceSuffix)
      ensures FileSkipped(fileName) <==> !includeSource
    {
    }

    /** Package files and context files are kept exactly when meta files are included. */
    lemma MetaFileRule(fileName: string)
      requires fileName != PackageFileBackup
      requires forall i :: 0 <= i < |skipFiles| ==> !EndsWith(fileName, skipFiles[i])
      requires !EndsWith(fileName, SourceSuffix)
      requires StartsWith(fileName, PackageFilePrefix) || EndsWith(fileName, ContextSuffix)
      ensures FileSkipped(fileName) <==> !includeMetaFiles
    {
    }

    /** Every other file is kept. */
    lemma OtherFilesKept(fileName: string)
      requires fileName != PackageFileBackup
      requires forall i :: 0 <= i < |skipFiles| ==> !EndsWith(fileName, skipFiles[i])
      requires !EndsWith(fileName, SourceSuffix)
      requires !StartsWith(fileName, PackageFilePrefix) && !EndsWith(fileName, ContextSuffix)
      ensures !FileSkipped(fileName)
    {
    }

    /** The version-control directory and the export directory itself are left out from the start. */
    lemma SeededDirsSkipped(dirName: string, canonicalPath: string)
      requires |skipDirs| >= 2 && skipDirs[..2] == [VersionControlDir, exportDirPath]
      requires dirName != ProjectLibDirName
      requires EndsWith(canonicalPath, VersionControlDir) || EndsWith(canonicalPath, exportDirPath)
      ensures DirSkipped(dirName, canonicalPath)
    {
      if EndsWith(canonicalPath, VersionControlDir) {
        assert skipDirs[0] == skipDirs[..2][0];
      } else {
        assert skipDirs[1] == skipDirs[..2][1];
      }
    }

    method IncludeSource(b: bool)
      modifies this
      ensures includeSource == b
      ensures includeMetaFiles == old(includeMetaFiles) && skipFiles == old(skipFiles) && skipDirs == old(skipDirs)
      ensures extraJars == old(extraJars) && mainClass == old(mainClass) && jarName == old(jarName)
      ensures dirs == old(dirs) && manifest == old(manifest)
    {
      includeSource := b;
    }

    method IncludeMetaFiles(b: bool)
      modifies this
      ensures includeMetaFiles == b
      ensures includeSource == old(includeSource) && skipFiles == old(skipFiles) && skipDirs == old(skipDirs)
      ensures extraJars == old(extraJars) && mainClass == old(mainClass) && jarName == old(jarName)
      ensures dirs == old(dirs) && manifest == old(manifest)
    {
      includeMetaFiles := b;
    }

    method SetMainClass(name: string)
      modifies this
      ensures mainClass == Some(name)
      ensures includeSource == old(includeSource) && includeMetaFiles == old(includeMetaFiles)
      ensures skipFiles == old(skipFiles) && skipDirs == old(skipDirs)
      ensures extraJars == old(extraJars) && jarName == old(jarName)
      ensures dirs == old(dirs) && manifest == old(manifest)
    {
      mainClass := Some(name);
    }

    method AddJar(jarName: string)
      modifies this
      ensures extraJars == old(extraJars) + [jarName]
      ensures ClassPath(extraJars) == ClassPath(old(extraJars)) + " " + jarName
      ensures includeSource == old(includeSource) && includeMetaFiles == old(includeMetaFiles)
      ensures skipFiles == old(skipFiles) && skipDirs == old(skipDirs) && dirs == old(dirs)
      ensures mainClass == old(mainClass) && this.jarName == old(this.jarName) && manifest == old(manifest)
    {
      extraJars := extraJars + [jarName];
      assert extraJars[..|extraJars| - 1] == old(extraJars);
    }

    method AddDir(dir: string)
      modifies this
      ensures dirs == old(dirs) + [dir]
      ensures includeSource == old(includeSource) && includeMetaFiles == old(includeMetaFiles)
      ensures skipFiles == old(skipFiles) && skipDirs == old(skipDirs) && extraJars == old(extraJars)
      ensures mainClass == old(mainClass) && jarName == old(jarName) && manifest == old(manifest)
    {
      dirs := dirs + [dir];
    }

    /** Directories whose canonical path ends with dir will be left out. */
    method AddSkipDir(dir: string)
      modifies this
      ensures skipDirs == old(skipDirs) + [dir]
      ensures forall name, path :: old(DirSkipped(name, path)) ==> DirSkipped(name, path)
      ensures forall name, path :: name != ProjectLibDirName && EndsWith(path, dir) ==> DirSkipped(name, path)
      ensures includeSource == old(includeSource) && includeMetaFiles == old(includeMetaFiles)
      ensures skipFiles == old(skipFiles) && extraJars == old(extraJars) && dirs == old(dirs)
      ensures mainClass == old(mainClass) && jarName == old(jarName) && manifest == old(manifest)
    {
      skipDirs := skipDirs + [dir];
      assert skipDirs[|skipDirs| - 1] == dir;
      forall name, path | old(DirSkipped(name, path))
        ensures DirSkipped(name, path)
      {
        if name != ProjectLibDirName {
          var i :| 0 <= i < |old(skipDirs)| && EndsWith(path, old(skipDirs)[i]);
          assert skipDirs[i] == old(skipDirs)[i];
        }
      }
    }

    /** Files whose name ends with file will be left out. */
    method AddSkipFile(file: string)
      modifies this
      ensures skipFiles == old(skipFiles) + [file]
      ensures forall name :: old(FileSkipped(name)) ==> FileSkipped(name)
      ensures forall name :: EndsWith(name, file) ==> FileSkipped(name)
      ensures includeSource == old(includeSource) && includeMetaFiles == old(includeMetaFiles)
      ensures skipDirs == old(skipDirs) && extraJars == old(extraJars) && dirs == old(dirs)
      ensures mainClass == old(mainClass) && jarName == old(jarName) && manifest == old(manifest)
    {
      skipFiles := skipFiles + [file];
      assert skipFiles[|skipFiles| - 1] == file;
      forall name | old(FileSkipped(name))
        ensures FileSkipped(name)
      {
        if exists i :: 0 <= i < |old(skipFiles)| && EndsWith(name, old(skipFiles)[i]) {
          var i :| 0 <= i < |old(skipFiles)| && EndsWith(name, old(skipFiles)[i]);
          assert skipFiles[i] == old(skipFiles)[i];
        }
      }
    }

    /** The manifest attributes: version 1.0, the main class and the class path of the extra jars. */
    method CreateManifest() returns (m: Manifest)
      ensures m == Manifest(ManifestVersion, mainClass, ClassPath(extraJars))
    {
      var classpath := "";
      var i := 0;
      while i < |extraJars|
        invariant 0 <= i <= |extraJars|
        invariant classpath == ClassPath(extraJars[..i])
      {
        assert extraJars[..i + 1][..i] == extraJars[..i];
        classpath := classpath + " " + extraJars[i];
        i := i + 1;
      }
      assert extraJars[..i] == extraJars;
      m := Manifest(ManifestVersion, mainClass, classpath);
    }

    /** Fixes the jar name and builds the manifest; writing the jar is not modelled. */
    method Create()
      modifies this
      ensures jarName == NormalizeJarName(old(jarName))
      ensures manifest == Some(Manifest(ManifestVersion, mainClass, ClassPath(extraJars)))
      ensures includeSource == old(includeSource) && includeMetaFiles == old(includeMetaFiles)
      ensures skipFiles == old(skipFiles) && skipDirs == old(skipDirs) && extraJars == old(extraJars)
      ensures dirs == old(dirs) && mainClass == old(mainClass)
    {
      if !EndsWith(jarName, JarSuffix) {
        jarName := jarName + JarSuffix;
      }
      var m := CreateManifest();
      manifest := Some(m);
    }
  }
}
