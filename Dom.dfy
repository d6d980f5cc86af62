/** The small part of the browser's document the blog's scripts touch: the
    element records they create, the container they append to, and the
    posts manifest entries they read. */
module Dom {
  import opened Wrappers
  import opened Calendar

  /** An element the scripts create, with its class (at most one; "" for
      none) and the properties they set. */
  datatype Node =
    | ListItem(className: string, children: seq<Node>)
    | Image(src: string, alt: string, className: string)
    | Division(className: string, children: seq<Node>)
    | Anchor(text: string, href: string, className: string)
    | Paragraph(text: string, className: string)

  /** A calendar day, as `new Date(post.date)` reads a well-formed date. */
  type Day = d: Date | ValidDate(d) witness Date(2024, 1, 1)

  /** A posts manifest entry as the browser sees it; the date is taken as
      the calendar day it names. */
  datatype WebPost = WebPost(title: string, path: string, description: string, date: Day, imagePath: Option<string>)

  /** The avatar shown for a post without an image. */
  const FallbackImage := "https://avatars.githubusercontent.com/u/62766066?v=4"

  /** `post.imagePath || fallback`: a missing or empty path is falsy. */
  function ImageSource(imagePath: Option<string>): (src: string)
    ensures src != ""
    ensures imagePath.Some? && imagePath.value != "" ==> src == imagePath.value
    ensures imagePath.None? || imagePath.value == "" ==> src == FallbackImage
  {
    if imagePath.Some? && imagePath.value != "" then imagePath.value else FallbackImage
  }

  /** A page element the scripts append children to (`#posts-content`,
      `#dropdown-content`). */
  class Container {
    var children: seq<Node>

    constructor (initial: seq<Node>)
      ensures children == initial
    {
      children := initial;
    }

    /** `appendChild`: the node goes at the end, nothing else moves. */
    method AppendChild(n: Node)
      modifies this
      ensures children == old(children) + [n]
    {
      children := children + [n];
    }
  }
}
