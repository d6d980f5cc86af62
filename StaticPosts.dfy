/** The other listing script, static/posts.js: it appends one list item per
    manifest post to `#posts-content`, in manifest order. It builds a date
    paragraph for each post but never attaches it, so an item holds the
    post's image, link and description only. */
module StaticPosts {
  import opened Wrappers
  import opened Dom
  import PostsPage

  /** The item static/posts.js appends for one post. */
  function StaticItem(p: WebPost): Node {
    ListItem("post-dropdown-item", [
      Image(ImageSource(p.imagePath), p.title, "post-image"),
      Division("post-content", [
        Anchor(p.title, p.path, "dropdown-link"),
        Paragraph(p.description, "post-description")])])
  }

  function StaticItems(posts: seq<WebPost>): (items: seq<Node>)
    ensures |items| == |posts|
  {
    seq(|posts|, i requires 0 <= i < |posts| => StaticItem(posts[i]))
  }

  /** The children left after removing every date line. */
  function DropDateLines(kids: seq<Node>): (r: seq<Node>)
    ensures |r| <= |kids|
    ensures forall n :: n in r ==> n in kids && !(n.Paragraph? && n.className == "post-date")
  {
    if kids == [] then []
    else
      var last := kids[|kids| - 1];
      DropDateLines(kids[..|kids| - 1]) + (if last.Paragraph? && last.className == "post-date" then [] else [last])
  }

  /** A post item of the shape both scripts build, with the date lines
      taken out of its content block. */
  function WithoutDateLine(n: Node): Node {
    if n.ListItem? && |n.children| == 2 && n.children[1].Division? then
      var content := n.children[1];
      ListItem(n.className, [n.children[0], Division(content.className, DropDateLines(content.children))])
    else n
  }

  /** A static item is the posts page's item for the same post without its
      date line: same image, same link, same description, same classes. */
  lemma StaticItemDropsDate(p: WebPost)
    ensures StaticItem(p) == WithoutDateLine(PostsPage.PostItem(p))
  {
    var kids := PostsPage.PostItem(p).children[1].children;
    assert kids[..|kids| - 1] == kids[..2];
    assert kids[..2][..1] == [kids[0]];
    assert [kids[0]][..0] == [];
    assert DropDateLines([kids[0]]) == [kids[0]];
    assert DropDateLines(kids[..2]) == [kids[0]];
    assert DropDateLines(kids) == [kids[0], kids[2]];
  }

  /** No item the static script appends shows a date. */
  lemma NoDateLine(posts: seq<WebPost>)
    ensures forall i :: 0 <= i < |posts| ==>
      forall n :: n in StaticItems(posts)[i].children[1].children ==> n.className != "post-date"
  {
  }

  /** The static page keeps the manifest order while the posts page sorts
      it: on a manifest that is already newest first the two pages show
      the same posts in the same order, item by item. */
  lemma SortedManifestSameOrder(posts: seq<WebPost>)
    requires PostsPage.NewestFirstOrder(posts)
    ensures PostsPage.NewestFirst(posts) == posts
    ensures forall i :: 0 <= i < |posts| ==> StaticItems(posts)[i] == WithoutDateLine(PostsPage.PostItems(posts)[i])
  {
    PostsPage.StableSortUnique(posts, posts);
    forall i | 0 <= i < |posts|
      ensures StaticItems(posts)[i] == WithoutDateLine(PostsPage.PostItems(posts)[i])
    {
      StaticItemDropsDate(posts[i]);
    }
  }

  /** `fetchPosts` once the response arrives: a failed response, a missing
      `#posts-content` or a manifest without `posts` throws before anything
      is appended; otherwise every post's item is appended in manifest
      order. */
  method FetchPosts(ok: bool, posts: Option<seq<WebPost>>, container: Container?)
    modifies container
    ensures container != null ==>
      container.children == old(container.children)
        + (if ok && posts.Some? then StaticItems(posts.value) else [])
  {
    if !ok || container == null || posts.None? {
      return;
    }
    var manifest := posts.value;
    var i := 0;
    while i < |manifest|
      invariant 0 <= i <= |manifest|
      invariant container.children == old(container.children) + StaticItems(manifest[..i])
    {
      var post := manifest[i];
      var postContent := Division("post-content", [
        Anchor(post.title, post.path, "dropdown-link"),
        Paragraph(post.description, "post-description")]);
      var postItem := ListItem("post-dropdown-item", [
        Image(ImageSource(post.imagePath), post.title, "post-image"),
        postContent]);
      container.AppendChild(postItem);
      assert StaticItems(manifest[..i + 1]) == StaticItems(manifest[..i]) + [StaticItem(manifest[i])];
      i := i + 1;
    }
    assert manifest[..i] == manifest;
  }
}
