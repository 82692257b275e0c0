/** The Google Docs element tree as the renderer sees it. Every accessor the
    script calls on an element (`getType`, `getHeading`, `getGlyphType`,
    `getListId`, `getNestingLevel`, `isAtDocumentEnd`, `getNextSibling`,
    `getText`, `getTextAttributeIndices`, `getAttributes`, `isBold`,
    `isItalic`, `getFootnoteContents`, `getBlob`, `getNumChildren`,
    `getChild`) becomes a field of a value here. */
module Document {

  /** `DocumentApp.ParagraphHeading`. */
  datatype Heading = Normal | Heading1 | Heading2 | Heading3 | Heading4 | Heading5 | Heading6 | Title | Subtitle

  /** `DocumentApp.GlyphType`. */
  datatype Glyph = Bullet | HollowBullet | SquareBullet | Number | LatinUpper | LatinLower | RomanUpper | RomanLower

  /** `DocumentApp.ElementType`, reduced to the kinds the renderer tells apart. */
  datatype Kind = ParagraphKind | ListItemKind | TextKind | InlineImageKind | FootnoteKind | OtherKind

  /** The three character attributes the renderer consults. */
  datatype Attrs = Attrs(bold: bool, italic: bool, underline: bool)

  /** One entry of `getTextAttributeIndices()` with `getAttributes(offset)`. */
  datatype Breakpoint = Breakpoint(offset: nat, attrs: Attrs)

  /** A Text element: its characters, its style breakpoints in the order the
      platform reports them, and what `isBold()` / `isItalic()` answer for the
      whole element (the platform answers null, which is falsy, when the
      setting is mixed, so those are false here). */
  datatype TextRun = TextRun(text: string, breaks: seq<Breakpoint>, bold: bool, italic: bool)

  /** An image payload, treated as opaque bytes. */
  newtype byte = x: int | 0 <= x < 256

  /** An element of the document tree.
      - `next` is the kind of the following sibling, `None` when there is none;
      - a Footnote holds the paragraphs of its footnote section;
      - `Other` is any remaining element (table, table cell, horizontal rule,
        ...); one that is not a container has no children. */
  datatype Node =
    | Paragraph(heading: Heading, children: seq<Node>)
    | ListItem(glyph: Glyph, listId: string, nestingLevel: nat, atDocumentEnd: bool,
               next: Option<Kind>, children: seq<Node>)
    | Text(run: TextRun)
    | InlineImage(contentType: string, blob: seq<byte>)
    | Footnote(paragraphs: seq<Node>)
    | Other(children: seq<Node>)

  datatype Option<T> = None | Some(value: T)
}
