/** The element names whose closing tags the repetition guard skips, internal/sse/repeat_guard.go. */
module HtmlNames {

  import opened FoldText

  predicate IsHtmlElement(name: string) {
    name in {
      "a", "article", "aside", "b", "blockquote", "body", "button", "code", "dd", "div", "dl", "dt", "em",
      "footer", "form", "g", "h1", "h2", "h3", "h4", "h5", "h6", "head", "header", "html", "i", "label",
      "li", "main", "nav", "ol", "option", "p", "path", "pre", "script", "section", "select", "span", "strong",
      "style", "svg", "table", "tbody", "td", "tfoot", "th", "thead", "tr", "ul"
    }
  }

  /** strings.ToLower on UTF-8 bytes, as far as an ASCII result is concerned: besides A-Z only the Kelvin
      sign and the dotted capital I have an ASCII lower case. */
  function LowerName(s: string, i: nat): string
    requires i <= |s|
    decreases |s| - i
  {
    if i == |s| then ""
    else if i + 3 <= |s| && s[i..i + 3] == "\U{E2}\U{84}\U{AA}" then "k" + LowerName(s, i + 3)
    else if i + 2 <= |s| && s[i..i + 2] == "\U{C4}\U{B0}" then "i" + LowerName(s, i + 2)
    else [Lower(s[i])] + LowerName(s, i + 1)
  }

  predicate IsHtmlName(name: string) {
    IsHtmlElement(LowerName(name, 0))
  }

  lemma {:induction false} LowerNameIsLong(name: string, i: nat)
    requires i <= |name|
    ensures 3 * |LowerName(name, i)| >= |name| - i
    decreases |name| - i
  {
    if i + 3 <= |name| && name[i..i + 3] == "\U{E2}\U{84}\U{AA}" {
      LowerNameIsLong(name, i + 3);
    } else if i + 2 <= |name| && name[i..i + 2] == "\U{C4}\U{B0}" {
      LowerNameIsLong(name, i + 2);
    } else if i < |name| {
      LowerNameIsLong(name, i + 1);
    }
  }

  /** No HTML element has a name of more than ten letters. */
  lemma LongNameIsNotHtml(name: string)
    requires |name| > 30
    ensures !IsHtmlName(name)
  {
    LowerNameIsLong(name, 0);
  }
}
