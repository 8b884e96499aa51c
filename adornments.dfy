/** The editor's rich-text shapes that the extension builds for tooltips:
    classified text runs, text elements, hyperlinks and styled containers. */
module Adornments {

  /** The classification and style of a run, as the converter and the description
      builder pair them. */
  datatype RunKind =
    | Plain    // "text", ClassifiedTextRunStyle.Plain
    | Bold     // "text", ClassifiedTextRunStyle.Bold
    | Code     // "keyword", UseClassificationFont
    | Markup   // "markup node", UseClassificationFont
    | Space    // "whitespace", the separator between description elements

  datatype Run = Run(kind: RunKind, text: string)

  /** The flags of `ContainerElementStyle`. */
  datatype Flag = Stacked | Wrapped | VerticalPadding

  datatype Node =
    | TextElement(runs: seq<Run>)
    | Hyperlink(text: string, tooltip: string, url: string)
    | Container(style: set<Flag>, children: seq<Node>)
}
