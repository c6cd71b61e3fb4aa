/**
 * The path and parameter strings of the javadoc front end
 * (bluej/pkgmgr/DocuGenerator.java).  The project directory path, the
 * documentation directory path and the configuration properties are inputs;
 * running javadoc and checking the directories are outside the model.
 */
module DocuGenerator {
  import opened Strings

  const JavaSuffix: string := ".java"
  const HtmlSuffix: string := ".html"
  const IndexPage: string := "index.html"
  const LinkFlag: string := " -link "

  /** The file name with a leading project path removed. */
  function StripProjectDir(projectDirPath: string, filename: string): (r: string)
    ensures StartsWith(filename, projectDirPath) ==> projectDirPath + r == filename
    ensures !StartsWith(filename, projectDirPath) ==> r == filename
  {
    if StartsWith(filename, projectDirPath) then
      StartsWithSplit(filename, projectDirPath);
      filename[|projectDirPath|..]
    else filename
  }

  /** The stem that names the documentation page of a file. */
  function PageStem(name: string): (r: string)
    ensures EndsWith(name, JavaSuffix) ==> StartsWith(name, r + JavaSuffix) && !Contains(r, JavaSuffix)
    ensures !EndsWith(name, JavaSuffix) ==> r == name
  {
    if EndsWith(name, JavaSuffix) then
      EndsWithContains(name, JavaSuffix);
      CutAtFirst(name, JavaSuffix)
    else name
  }

  /**
   * The path of the HTML page generated for a source file: the documentation
   * directory, then the file's path below the project directory, cut before the
   * first ".java" when the name ends with ".java", then ".html".
   */
  function GetDocuPath(projectDirPath: string, docDirPath: string, filename: string): (r: string)
    ensures StartsWith(r, docDirPath) && EndsWith(r, HtmlSuffix)
    ensures |docDirPath| + |HtmlSuffix| <= |r|
    ensures r[|docDirPath|..|r| - |HtmlSuffix|] == PageStem(StripProjectDir(projectDirPath, filename))
  {
    var stem := PageStem(StripProjectDir(projectDirPath, filename));
    assert (docDirPath + stem + HtmlSuffix)[|docDirPath|..|docDirPath| + |stem|] == stem;
    docDirPath + stem + HtmlSuffix
  }

  /** In rest + ".java", with no ".java" in rest, the first ".java" is the suffix. */
  lemma FirstJavaIsSuffix(rest: string)
    requires !Contains(rest, JavaSuffix)
    ensures IndexOf(rest + JavaSuffix, JavaSuffix) == |rest|
  {
    var name := rest + JavaSuffix;
    assert OccursAt(name, JavaSuffix, |rest|) by {
      assert name[|rest|..|rest| + |JavaSuffix|] == JavaSuffix;
    }
    forall j | 0 <= j < |rest|
      ensures !OccursAt(name, JavaSuffix, j)
    {
      if j + |JavaSuffix| <= |rest| {
        assert rest[j..j + |JavaSuffix|] == name[j..j + |JavaSuffix|];
        assert !OccursAt(rest, JavaSuffix, j);
      } else {
        // the window would put a letter of ".java" on the suffix's dot
        assert name[j..j + |JavaSuffix|][|rest| - j] == name[|rest|] == '.';
        assert JavaSuffix[|rest| - j] != '.';
      }
    }
  }

  /** A file with exactly one ".java", at its end, has the page named after the rest. */
  lemma DocuPathOfPlainSource(projectDirPath: string, docDirPath: string, rest: string)
    requires !Contains(rest, JavaSuffix)
    ensures GetDocuPath(projectDirPath, docDirPath, projectDirPath + rest + JavaSuffix)
         == docDirPath + rest + HtmlSuffix
  {
    var filename := projectDirPath + rest + JavaSuffix;
    assert StartsWith(filename, projectDirPath) by {
      assert filename[..|projectDirPath|] == projectDirPath;
    }
    var name := StripProjectDir(projectDirPath, filename);
    assert name == rest + JavaSuffix;
    assert EndsWith(name, JavaSuffix) by {
      assert name[|name| - |JavaSuffix|..] == JavaSuffix;
    }
    FirstJavaIsSuffix(rest);
    assert name[..|rest|] == rest;
  }

  /** A name with ".java" inside, such as "X.javax.java", is cut at the first ".java". */
  lemma PageStemCutsAtFirstJava()
    ensures PageStem("X.javax.java") == "X"
  {
    var name := "X.javax.java";
    assert EndsWith(name, JavaSuffix) by {
      assert name[7..] == JavaSuffix;
    }
    assert OccursAt(name, JavaSuffix, 1) by {
      assert name[1..6] == JavaSuffix;
    }
    assert !OccursAt(name, JavaSuffix, 0) by {
      assert name[0] != JavaSuffix[0];
    }
    assert name[..1] == "X";
  }

  /**
   * The javadoc link parameter: empty unless the link flag is exactly "true";
   * otherwise " -link " and the library URL, cut at the first "index.html"
   * when the URL ends with it.
   */
  function GetLinkParam(linkToLib: string, docURL: string): (r: string)
    ensures linkToLib != "true" ==> r == ""
    ensures linkToLib == "true" ==> StartsWith(r, LinkFlag)
    ensures linkToLib == "true" && !EndsWith(docURL, IndexPage) ==> r == LinkFlag + docURL
    ensures linkToLib == "true" && EndsWith(docURL, IndexPage) ==>
      var url := r[|LinkFlag|..];
      StartsWith(docURL, url + IndexPage) && !Contains(url, IndexPage)
  {
    if linkToLib == "true" then
      var url :=
        if EndsWith(docURL, IndexPage) then
          EndsWithContains(docURL, IndexPage);
          CutAtFirst(docURL, IndexPage)
        else docURL;
      assert (LinkFlag + url)[|LinkFlag|..] == url;
      LinkFlag + url
    else ""
  }

  /** The link parameter is never empty when linking is on. */
  lemma LinkParamEmptyIffOff(linkToLib: string, docURL: string)
    ensures GetLinkParam(linkToLib, docURL) == "" <==> linkToLib != "true"
  {
  }

  /** The parameter strings the generator builds once per project. */
  datatype JavadocParams = JavadocParams(destinationParam: string, sourceParam: string, titleParams: string)

  const DestinationFlag: string := " -d "
  const SourcePathFlag: string := " -sourcepath "
  const DocTitleFlag: string := " -doctitle "
  const WindowTitleFlag: string := " -windowtitle "

  /** The parameters set by the constructor. */
  function NewParams(projectDirPath: string, docDirPath: string, projectName: string): (r: JavadocParams)
    ensures StartsWith(r.destinationParam, DestinationFlag) && r.destinationParam[|DestinationFlag|..] == docDirPath
    ensures StartsWith(r.sourceParam, SourcePathFlag) && r.sourceParam[|SourcePathFlag|..] == projectDirPath
    ensures StartsWith(r.titleParams, DocTitleFlag) && EndsWith(r.titleParams, WindowTitleFlag + projectName)
  {
    var d := DestinationFlag + docDirPath;
    var s := SourcePathFlag + projectDirPath;
    var t := DocTitleFlag + projectName + WindowTitleFlag + projectName;
    assert d[|DestinationFlag|..] == docDirPath;
    assert s[|SourcePathFlag|..] == projectDirPath;
    assert t == DocTitleFlag + (projectName + WindowTitleFlag + projectName);
    assert t[|t| - |WindowTitleFlag + projectName|..] == WindowTitleFlag + projectName;
    JavadocParams(d, s, t)
  }
}
