/** `MarkdownString`: a fragment of post or comment body kept in two renderings. */
module Markdown {

  datatype MarkdownString = MarkdownString(originalContent: string, markdownContent: string)

  /**
   * `init(html:)`: keeps the server's HTML and, since the HTML-to-Markdown
   * conversion is switched off, uses the same text as the Markdown rendering.
   */
  function FromHtml(html: string): (m: MarkdownString)
    ensures m.originalContent == html
    ensures m.markdownContent == m.originalContent
  {
    MarkdownString(html, html)
  }

  /** `init(markdown:)`: the Markdown is both renderings. */
  function FromMarkdown(markdown: string): (m: MarkdownString)
    ensures m.originalContent == markdown && m.markdownContent == markdown
  {
    MarkdownString(markdown, markdown)
  }

  /** With conversion switched off the two initialisers cannot be told apart. */
  lemma InitialisersAgree(s: string)
    ensures FromHtml(s) == FromMarkdown(s)
  {
  }
}
