/** The navigation dropdown script static/scripts/dropdown.js: one plain
    link per manifest post, appended to `#dropdown-content` in manifest
    order. It does not look at the response status. */
module Dropdown {
  import opened Wrappers
  import opened Dom
  import PostsPage
  import StaticPosts

  /** The link appended for one post: its title as text, its site path as
      target, no class. */
  function DropdownLink(p: WebPost): (a: Node)
    ensures a.Anchor? && a.className == ""
    ensures a.text == p.title && a.href == p.path
  {
    Anchor(p.title, p.path, "")
  }

  function DropdownLinks(posts: seq<WebPost>): (links: seq<Node>)
    ensures |links| == |posts|
    ensures forall i :: 0 <= i < |posts| ==> links[i].Anchor? && links[i].href == posts[i].path
    ensures forall i :: 0 <= i < |posts| ==> links[i].text == posts[i].title && links[i].className == ""
  {
    seq(|posts|, i requires 0 <= i < |posts| => DropdownLink(posts[i]))
  }

  /** The link in a post's list item on either listing page is the
      dropdown's link for that post with the `dropdown-link` class added. */
  lemma LinkMatchesListings(p: WebPost)
    ensures PostsPage.PostItem(p).children[1].children[0] == Anchor(DropdownLink(p).text, DropdownLink(p).href, "dropdown-link")
    ensures StaticPosts.StaticItem(p).children[1].children[0] == Anchor(DropdownLink(p).text, DropdownLink(p).href, "dropdown-link")
  {
  }

  /** Distinct paths give distinct links, so the dropdown lists as many
      destinations as the manifest has distinct paths. */
  lemma LinksTellPathsApart(posts: seq<WebPost>, i: nat, j: nat)
    requires i < |posts| && j < |posts|
    requires posts[i].path != posts[j].path
    ensures DropdownLinks(posts)[i] != DropdownLinks(posts)[j]
  {
  }

  /** `fetchPosts` once the manifest is decoded: with no `posts` list, or
      no `#dropdown-content` element, the script throws before anything is
      appended; otherwise each post's link is appended in manifest order
      and nothing already in the container moves. */
  method FetchPosts(posts: Option<seq<WebPost>>, container: Container?)
    modifies container
    ensures container != null ==>
      container.children == old(container.children) + (if posts.Some? then DropdownLinks(posts.value) else [])
  {
    if posts.None? || container == null {
      return;
    }
    var manifest := posts.value;
    var i := 0;
    while i < |manifest|
      invariant 0 <= i <= |manifest|
      invariant container.children == old(container.children) + DropdownLinks(manifest[..i])
    {
      var post := manifest[i];
      var postLink := Anchor(post.title, post.path, "");
      container.AppendChild(postLink);
      assert DropdownLinks(manifest[..i + 1]) == DropdownLinks(manifest[..i]) + [DropdownLink(manifest[i])];
      i := i + 1;
    }
    assert manifest[..i] == manifest;
  }

  /** `fetchPosts` never clears the container: running it a second time
      on the same page appends every link again after the first copies. */
  method FetchTwice(posts: Option<seq<WebPost>>, container: Container?)
    modifies container
    ensures container != null ==>
      container.children == old(container.children)
        + (if posts.Some? then DropdownLinks(posts.value) + DropdownLinks(posts.value) else [])
  {
    FetchPosts(posts, container);
    FetchPosts(posts, container);
  }
}
