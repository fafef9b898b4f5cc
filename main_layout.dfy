/** The page title the main layout derives from the current route path. */
module MainLayout {
  import opened Text
  import opened Seqs

  /** `path.slice(1)`: everything after the first character. */
  function DropFirst(path: string): string {
    if path == [] then [] else path[1..]
  }

  /** The root path is the dashboard; any other path is its dash-separated words, capitalised. */
  function PageTitle(path: string): string {
    if path == "/" then "Dashboard" else CapitalizeWords(DropFirst(path), '-')
  }

  /**
   * For every path other than the root, the title drops the first character, turns each dash
   * into one space, upper-cases the first character of each segment and keeps everything else.
   */
  lemma PageTitleAt(path: string)
    requires path != "/"
    ensures |PageTitle(path)| == |DropFirst(path)|
    ensures path != [] ==> |PageTitle(path)| == |path| - 1
    ensures forall i :: 0 <= i < |DropFirst(path)| ==>
      PageTitle(path)[i] == CapitalizedChar(DropFirst(path), '-', i)
  {
    CapitalizeWordsAt(DropFirst(path), '-');
  }

  /**
   * When the path has no spaces, the title has one space-separated word per dash-separated
   * segment of the path after its first character (empty segments stay empty words).
   */
  lemma PageTitleWords(path: string)
    requires path != "/" && ' ' !in path
    ensures Split(PageTitle(path), ' ') == Map(Split(DropFirst(path), '-'), UpperFirst)
    ensures |Split(PageTitle(path), ' ')| == CountChar(DropFirst(path), '-') + 1
  {
    CapitalizeWordsWords(DropFirst(path), '-');
  }

  /** The titles of two of the routes in the sidebar, and of the root. */
  lemma RootTitle()
    ensures PageTitle("/") == "Dashboard"
  {
  }

  lemma CarManagementTitle()
    ensures PageTitle("/car-management") == "Car Management"
  {
    assert UpperChar('c') == 'C' && UpperChar('m') == 'M';
    TitleOfTwoWords("car", "management", "Car", "Management");
    CarManagementSpelling();
  }

  /** Proof helper with no counterpart in the code: the literal concatenations behind the example above. */
  lemma CarManagementSpelling()
    ensures "/" + "car" + "-" + "management" == "/car-management"
    ensures "Car" + " " + "Management" == "Car Management"
  {
  }

  lemma ApiDocumentationTitle()
    ensures PageTitle("/api-documentation") == "Api Documentation"
  {
    assert UpperChar('a') == 'A' && UpperChar('d') == 'D';
    TitleOfTwoWords("api", "documentation", "Api", "Documentation");
    ApiDocumentationSpelling();
  }

  /** Proof helper with no counterpart in the code: the literal concatenations behind the example above. */
  lemma ApiDocumentationSpelling()
    ensures "/" + "api" + "-" + "documentation" == "/api-documentation"
    ensures "Api" + " " + "Documentation" == "Api Documentation"
  {
  }

  lemma TitleOfTwoWords(a: string, b: string, capA: string, capB: string)
    requires '-' !in a && '-' !in b && UpperFirst(a) == capA && UpperFirst(b) == capB
    ensures PageTitle("/" + a + "-" + b) == capA + " " + capB
  {
    var path := "/" + a + "-" + b;
    assert path != "/" by {
      assert |path| >= 2;
    }
    var ws := [a, b];
    assert DropFirst(path) == Join(ws, '-');
    CapitalizeKnownWords(ws, '-');
    assert Map(ws, UpperFirst) == [capA, capB];
  }
}
