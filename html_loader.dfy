/** `CustomHTMLLoader` of `src/html_loader.py`: reads one HTML file and turns it into a single
    document whose text is either the text of selected elements or the text of the whole page.
    Parsing is BeautifulSoup's and is foreign code, so the parsed page is a value: the lookup
    `soup.find(tag, id=...)`, the page's text strings, and its `<title>` element. */
module HtmlLoader {
  import opened Documents
  import opened PyText

  /** A parsed page. `find(tag, id)` gives the text strings of the first element with that tag
      and id, or `None` when there is none; `strings` are the text strings of the whole page;
      `title` is `None` without a `<title>` element, and otherwise its `.string`, which is `None`
      when the element does not hold exactly one string. */
  datatype Soup = Soup(
    find: (string, string) -> Option<seq<string>>,
    strings: seq<string>,
    title: Option<Option<string>>)

  /** `get_text(sep)` of an element or page: its text strings joined by `sep`. */
  function GetText(strings: seq<string>, sep: string): string
  {
    JoinWith(strings, sep)
  }

  /** The title `load` records: `""` without a `<title>` element, and `str(soup.title.string)`
      otherwise, which is the text `"None"` when the element has no single string. */
  function TitleOf(soup: Soup): (r: string)
    ensures soup.title == None ==> r == ""
    ensures soup.title == Some(None) ==> r == "None"
    ensures soup.title != None && soup.title.value != None ==> r == soup.title.value.value
  {
    match soup.title
    case None => ""
    case Some(None) => "None"
    case Some(Some(t)) => t
  }

  /** What one `(element, element_id)` entry of the mapping adds to the text: the found element's
      text and a newline, or nothing when no such element exists. */
  function Contribution(pair: (string, string), soup: Soup, sep: string): string
  {
    match soup.find(pair.0, pair.1)
    case None => ""
    case Some(strings) => GetText(strings, sep) + "\n"
  }

  /** The text the loop of `load` has built after the entries `pairs`, in iteration order. */
  function SelectedText(pairs: seq<(string, string)>, soup: Soup, sep: string): string
  {
    if pairs == [] then ""
    else SelectedText(pairs[..|pairs| - 1], soup, sep) + Contribution(pairs[|pairs| - 1], soup, sep)
  }

  /** The text `load` assembles before stripping: the selected elements' text for a non-empty
      mapping, and the whole page's text for a missing or empty one. */
  function AssembledText(elementsWithIds: Option<seq<(string, string)>>, soup: Soup, sep: string): string
  {
    if elementsWithIds != None && elementsWithIds.value != [] then SelectedText(elementsWithIds.value, soup, sep)
    else GetText(soup.strings, sep)
  }

  /** The texts of the found elements, in mapping order; entries with no element are dropped. */
  function FoundTexts(pairs: seq<(string, string)>, soup: Soup, sep: string): seq<string>
  {
    if pairs == [] then []
    else
      var rest := FoundTexts(pairs[1..], soup, sep);
      match soup.find(pairs[0].0, pairs[0].1)
      case None => rest
      case Some(strings) => [GetText(strings, sep)] + rest
  }

  /** Each text followed by a newline, all concatenated. */
  function ConcatLines(texts: seq<string>): string
  {
    if texts == [] then "" else texts[0] + "\n" + ConcatLines(texts[1..])
  }

  lemma {:induction false} ConcatLinesAppend(a: seq<string>, b: seq<string>)
    ensures ConcatLines(a + b) == ConcatLines(a) + ConcatLines(b)
  {
    if a != [] {
      assert (a + b)[1..] == a[1..] + b;
      ConcatLinesAppend(a[1..], b);
    } else {
      assert a + b == b;
    }
  }

  lemma {:induction false} FoundTextsLast(pairs: seq<(string, string)>, soup: Soup, sep: string)
    requires pairs != []
    ensures var last := pairs[|pairs| - 1];
      FoundTexts(pairs, soup, sep) ==
        FoundTexts(pairs[..|pairs| - 1], soup, sep) +
        (match soup.find(last.0, last.1) case None => [] case Some(strings) => [GetText(strings, sep)])
  {
    if |pairs| > 1 {
      assert pairs[1..][..|pairs[1..]| - 1] == pairs[..|pairs| - 1][1..];
      FoundTextsLast(pairs[1..], soup, sep);
    }
  }

  /** The loop's text is the text of every found element, each followed by a newline, in mapping
      order; entries with no element leave no trace. */
  lemma {:induction false} SelectedTextIsFoundLines(pairs: seq<(string, string)>, soup: Soup, sep: string)
    ensures SelectedText(pairs, soup, sep) == ConcatLines(FoundTexts(pairs, soup, sep))
  {
    if pairs != [] {
      var init := pairs[..|pairs| - 1];
      var last := pairs[|pairs| - 1];
      SelectedTextIsFoundLines(init, soup, sep);
      FoundTextsLast(pairs, soup, sep);
      var tail: seq<string> := match soup.find(last.0, last.1) case None => [] case Some(strings) => [GetText(strings, sep)];
      ConcatLinesAppend(FoundTexts(init, soup, sep), tail);
      assert ConcatLines(tail) == Contribution(last, soup, sep) by {
        if tail != [] {
          assert tail[1..] == [];
        }
      }
    }
  }

  /** The text of a mapping is the text of its first part followed by the text of the rest. */
  lemma {:induction false} SelectedTextAppend(a: seq<(string, string)>, b: seq<(string, string)>, soup: Soup, sep: string)
    ensures SelectedText(a + b, soup, sep) == SelectedText(a, soup, sep) + SelectedText(b, soup, sep)
  {
    if b != [] {
      var init := b[..|b| - 1];
      assert (a + b)[..|a + b| - 1] == a + init;
      SelectedTextAppend(a, init, soup, sep);
    } else {
      assert a + b == a;
    }
  }

  /** An entry whose element is not found contributes nothing, wherever it sits in the mapping. */
  lemma NotFoundContributesNothing(a: seq<(string, string)>, pair: (string, string), b: seq<(string, string)>, soup: Soup, sep: string)
    requires soup.find(pair.0, pair.1) == None
    ensures SelectedText(a + [pair] + b, soup, sep) == SelectedText(a + b, soup, sep)
  {
    SelectedTextAppend(a + [pair], b, soup, sep);
    assert (a + [pair])[..|a + [pair]| - 1] == a;
    assert SelectedText(a + [pair], soup, sep) == SelectedText(a, soup, sep) + "";
    SelectedTextAppend(a, b, soup, sep);
  }

  /** The selected text depends only on what the lookup finds for the listed entries: neither
      the rest of the page nor its title matters. */
  lemma {:induction false} SelectionIgnoresRestOfPage(pairs: seq<(string, string)>, soup: Soup, other: Soup, sep: string)
    requires forall i :: 0 <= i < |pairs| ==> soup.find(pairs[i].0, pairs[i].1) == other.find(pairs[i].0, pairs[i].1)
    ensures SelectedText(pairs, soup, sep) == SelectedText(pairs, other, sep)
  {
    if pairs != [] {
      SelectionIgnoresRestOfPage(pairs[..|pairs| - 1], soup, other, sep);
    }
  }

  /** A missing mapping and an empty one both select the whole page; a non-empty one selects
      the found elements' texts, one line each. */
  lemma AssembledTextCases(elementsWithIds: Option<seq<(string, string)>>, soup: Soup, sep: string)
    ensures elementsWithIds == None || elementsWithIds == Some([]) ==>
      AssembledText(elementsWithIds, soup, sep) == AssembledText(None, soup, sep)
    ensures elementsWithIds != None && elementsWithIds.value != [] ==>
      AssembledText(elementsWithIds, soup, sep) == ConcatLines(FoundTexts(elementsWithIds.value, soup, sep))
  {
    if elementsWithIds != None && elementsWithIds.value != [] {
      SelectedTextIsFoundLines(elementsWithIds.value, soup, sep);
    }
  }

  /** The BeautifulSoup arguments used when none are given: parse with `lxml`. */
  const DEFAULT_BS_KWARGS: map<string, string> := map["features" := "lxml"]

  /** The loader's configuration, set once by the constructor. */
  class CustomHtmlLoader {
    var filePath: string
    var openEncoding: Option<string>
    var bsKwargs: map<string, string>
    var getTextSeparator: string

    /** `__init__`: keeps the path, encoding and separator as given (the separator defaults to
        the empty string) and replaces missing BeautifulSoup arguments by `lxml` parsing. */
    constructor (filePath: string, openEncoding: Option<string> := None,
                 bsKwargs: Option<map<string, string>> := None, getTextSeparator: string := "")
      ensures this.filePath == filePath && this.openEncoding == openEncoding
      ensures bsKwargs == None ==> this.bsKwargs == DEFAULT_BS_KWARGS
      ensures bsKwargs != None ==> this.bsKwargs == bsKwargs.value
      ensures this.getTextSeparator == getTextSeparator
    {
      this.filePath := filePath;
      this.openEncoding := openEncoding;
      if bsKwargs == None {
        this.bsKwargs := DEFAULT_BS_KWARGS;
      } else {
        this.bsKwargs := bsKwargs.value;
      }
      this.getTextSeparator := getTextSeparator;
    }

    /** `load`, given the page parsed from `filePath`: exactly one document, whose text is the
        assembled text with surrounding whitespace stripped, and whose metadata is the source
        path and the title. */
    method Load(soup: Soup, elementsWithIds: Option<seq<(string, string)>> := None) returns (docs: seq<Document>)
      ensures |docs| == 1
      ensures docs[0].pageContent == Strip(AssembledText(elementsWithIds, soup, getTextSeparator))
      ensures docs[0].metadata == map["source" := filePath, "title" := TitleOf(soup)]
    {
      var text := "";
      if elementsWithIds != None && elementsWithIds.value != [] {
        var pairs := elementsWithIds.value;
        for i := 0 to |pairs|
          invariant text == SelectedText(pairs[..i], soup, getTextSeparator)
        {
          assert pairs[..i + 1][..i] == pairs[..i];
          var (element, elementId) := pairs[i];
          var found := soup.find(element, elementId);
          if found != None {
            text := text + GetText(found.value, getTextSeparator) + "\n";
          }
        }
        assert pairs[..|pairs|] == pairs;
      } else {
        text := GetText(soup.strings, getTextSeparator);
      }
      var title := "";
      if soup.title != None {
        title := if soup.title.value == None then "None" else soup.title.value.value;
      }
      var metadata := map["source" := filePath, "title" := title];
      return [Document(Strip(text), metadata)];
    }
  }
}
