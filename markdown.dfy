/**
 * The event stream of the `pulldown_cmark` Markdown parser, without the text
 * payloads. The parser itself is not modelled: the extractors receive the
 * events it produces for the original text.
 */
module Markdown {

  datatype Tag =
    | Paragraph | Heading | BlockQuote | CodeBlock | HtmlBlock | List | Item
    | FootnoteDefinition | DefinitionList | DefinitionListTitle | DefinitionListDefinition
    | Table | TableHead | TableRow | TableCell
    | Emphasis | Strong | Strikethrough | Superscript | Subscript | Link | Image | MetadataBlock

  datatype Event =
    | Start(tag: Tag)
    | End(tag: Tag)
    | Text
    | Code
    | InlineMath
    | DisplayMath
    | Html
    | InlineHtml
    | FootnoteReference
    | SoftBreak
    | HardBreak
    | Rule
    | TaskListMarker
}
