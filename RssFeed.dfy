/** The RSS 2.0 feed builder `generate_rss` of tools/json2rss.py: a posts
    manifest and an optional metadata file become an `<rss>` element tree
    whose channel carries the site's metadata, then one item (followed by an
    Atom `rel="self"` link) per post, newest manifest entry first. */
module RssFeed {
  import opened Wrappers
  import opened Calendar
  import opened DateFormats

  /** An XML element as ElementTree holds it: tag, attributes in the order
      they were given, text ("" where ElementTree has none), and children. */
  datatype Element = Element(tag: string, attrs: seq<(string, string)>, text: string, children: seq<Element>)

  /** A decoded JSON object whose values are strings. */
  type JsonObject = map<string, string>

  /** The posts file: absent, or decoded with or without a `posts` list. */
  datatype PostsFile = PostsMissing | PostsLoaded(posts: Option<seq<JsonObject>>)

  /** The metadata file: no path given, a path whose loading failed, or its fields. */
  datatype MetadataFile = NoMetadata | MetadataUnreadable | MetadataLoaded(fields: JsonObject)

  /** Why no feed is written: the posts file is missing (the builder prints
      an error and returns) or a post's date does not read as `%Y-%m-%d`
      (`strptime` raises `ValueError`). */
  datatype FeedError = PostsFileNotFound | BadDate(date: string)

  const DefaultTitle := "NotAShelf's personal blog"
  const DefaultLink := "https://blog.notashelf.dev/"
  const DefaultDescription := "Notes on Nix, Linux and every other pie I put a finger in"
  const DefaultLanguage := "en-us"
  const EpochDate := "1970-01-01"

  /** Atom's `link` element in ElementTree's `{namespace}name` notation (section 4.2.7 of RFC 4287). */
  const AtomLinkTag := "{http://www.w3.org/2005/Atom}link"

  const Defaults: JsonObject :=
    map["title" := DefaultTitle, "link" := DefaultLink,
        "description" := DefaultDescription, "language" := DefaultLanguage]

  /** Python's `dict.get(key, default)`. */
  function Get(m: JsonObject, key: string, default: string): string {
    if key in m then m[key] else default
  }

  function Leaf(tag: string, text: string): Element {
    Element(tag, [], text, [])
  }

  /** The metadata the builder works with: the defaults, updated with the file's fields. */
  function Metadata(file: MetadataFile): JsonObject {
    if file.MetadataLoaded? then Defaults + file.fields else Defaults
  }

  /** The file's keys override the defaults, keys it lacks keep their
      defaults, and no other key appears; without a loaded file the defaults
      stand intact. */
  lemma MetadataMerge(file: MetadataFile)
    ensures forall k :: k in Metadata(file) <==> k in Defaults || (file.MetadataLoaded? && k in file.fields)
    ensures forall k :: file.MetadataLoaded? && k in file.fields ==> Metadata(file)[k] == file.fields[k]
    ensures forall k :: k in Defaults && !(file.MetadataLoaded? && k in file.fields) ==> Metadata(file)[k] == Defaults[k]
    ensures !file.MetadataLoaded? ==> Metadata(file) == Defaults
  {
  }

  /** The channel's first five children; `pubDate` is the build time as
      the channel's `pubDate` text. */
  function Header(meta: JsonObject, pubDate: string): seq<Element> {
    [Leaf("title", Get(meta, "title", DefaultTitle)),
     Leaf("link", Get(meta, "link", DefaultLink)),
     Leaf("description", Get(meta, "description", DefaultDescription)),
     Leaf("language", Get(meta, "language", DefaultLanguage)),
     Leaf("pubDate", pubDate)]
  }

  /** What the guid hashes: title, date and url run together, each "" when absent. */
  function GuidInput(post: JsonObject): string {
    Get(post, "title", "") + Get(post, "date", "") + Get(post, "url", "")
  }

  /** The date an item is published on, when its `date` (default 1970-01-01) reads. */
  function PostDate(post: JsonObject): Option<Date> {
    ParseIsoDate(Get(post, "date", EpochDate))
  }

  /** An item, given its `pubDate` text. */
  function Item(post: JsonObject, pubDate: string, sha256Hex: string -> string): Element {
    Element("item", [], "", [
      Leaf("title", Get(post, "title", "")),
      Leaf("link", Get(post, "url", "")),
      Leaf("description", Get(post, "description", "")),
      Leaf("pubDate", pubDate),
      Leaf("guid", sha256Hex(GuidInput(post)))])
  }

  function SelfLink(meta: JsonObject): Element {
    Element(AtomLinkTag, [("rel", "self"), ("href", Get(meta, "link", DefaultLink) + "feed.xml")], "", [])
  }

  /** The dates of the posts in manifest order, or, when some date does not
      read, the error of the last such post: the loop runs over the
      manifest reversed and stops at the first failure it meets. */
  function PostDates(posts: seq<JsonObject>): (r: Result<seq<Date>, FeedError>)
    ensures r.Ok? ==> |r.value| == |posts| && AllValid(r.value)
  {
    if posts == [] then Ok([])
    else match PostDates(posts[1..])
      case Err(e) => Err(e)
      case Ok(later) =>
        match PostDate(posts[0])
        case None => Err(BadDate(Get(posts[0], "date", EpochDate)))
        case Some(d) => assert ([d] + later)[1..] == later; Ok([d] + later)
  }

  /** Every date of the list is one Python's `date` can hold. */
  predicate AllValid(dates: seq<Date>) {
    dates == [] || (ValidPythonDate(dates[0]) && AllValid(dates[1..]))
  }

  /** The items' `pubDate` texts for a list of dates. */
  function Stamps(dates: seq<Date>): (r: seq<string>)
    requires AllValid(dates)
    ensures |r| == |dates|
  {
    if dates == [] then [] else [ItemPubDate(dates[0])] + Stamps(dates[1..])
  }

  /** Stamp k is date k in RFC 822 form. */
  lemma {:induction false} StampAt(dates: seq<Date>, k: nat)
    requires AllValid(dates) && k < |dates|
    ensures ValidPythonDate(dates[k]) && Stamps(dates)[k] == ItemPubDate(dates[k])
  {
    if k > 0 {
      StampAt(dates[1..], k - 1);
    }
  }

  /** The posts' items in manifest order, post k's with stamp k. */
  function ItemList(posts: seq<JsonObject>, stamps: seq<string>, sha256Hex: string -> string): (r: seq<Element>)
    requires |stamps| == |posts|
    ensures |r| == |posts|
  {
    if posts == [] then [] else [Item(posts[0], stamps[0], sha256Hex)] + ItemList(posts[1..], stamps[1..], sha256Hex)
  }

  /** Each element followed by `link`, the last element first. */
  function Pairs(elements: seq<Element>, link: Element): (r: seq<Element>)
    ensures |r| == 2 * |elements|
  {
    if elements == [] then [] else Pairs(elements[1..], link) + [elements[0], link]
  }

  /** The channel children for posts whose dates have been read: the loop
      runs over the manifest reversed, so the last post's item and self
      link come first, then the others' in turn. */
  function Items(meta: JsonObject, posts: seq<JsonObject>, stamps: seq<string>, sha256Hex: string -> string): seq<Element>
    requires |stamps| == |posts|
  {
    Pairs(ItemList(posts, stamps, sha256Hex), SelfLink(meta))
  }

  /** The channel's children once every date has been read: the header,
      then the items. */
  function Channel(meta: JsonObject, posts: seq<JsonObject>, stamps: seq<string>, pubDate: string, sha256Hex: string -> string): seq<Element>
    requires |stamps| == |posts|
  {
    Header(meta, pubDate) + Items(meta, posts, stamps, sha256Hex)
  }

  function Rss(channel: seq<Element>): Element {
    Element("rss", [("version", "2.0")], "", [Element("channel", [], "", channel)])
  }

  /** The feed `generate_rss` writes, or why it writes none. */
  function Feed(postsFile: PostsFile, metadataFile: MetadataFile, pubDate: string, sha256Hex: string -> string): Result<Element, FeedError> {
    match postsFile
    case PostsMissing => Err(PostsFileNotFound)
    case PostsLoaded(posts) =>
      var meta := Metadata(metadataFile);
      var manifest := if posts.Some? then posts.value else [];
      match PostDates(manifest)
      case Err(e) => Err(e)
      case Ok(dates) => Ok(Rss(Channel(meta, manifest, Stamps(dates), pubDate, sha256Hex)))
  }

  lemma PostDatesStep(posts: seq<JsonObject>, i: nat, d: Date)
    requires i < |posts| && PostDates(posts[i + 1..]).Ok? && PostDate(posts[i]) == Some(d)
    ensures PostDates(posts[i..]) == Ok([d] + PostDates(posts[i + 1..]).value)
  {
    assert posts[i..][1..] == posts[i + 1..];
  }

  /** A post whose date does not read stops the builder: the whole list
      fails with the error met from the end of the manifest. */
  lemma {:induction false} PostDatesErrorStops(posts: seq<JsonObject>, i: nat)
    requires i <= |posts| && PostDates(posts[i..]).Err?
    ensures PostDates(posts) == PostDates(posts[i..])
    decreases i
  {
    if i > 0 {
      assert posts[i - 1..][1..] == posts[i..];
      PostDatesErrorStops(posts, i - 1);
    } else {
      assert posts[0..] == posts;
    }
  }

  /** The date read for post k is post k's own. */
  lemma {:induction false} PostDateAt(posts: seq<JsonObject>, k: nat)
    requires PostDates(posts).Ok? && k < |posts|
    ensures PostDate(posts[k]) == Some(PostDates(posts).value[k])
  {
    if k > 0 {
      PostDateAt(posts[1..], k - 1);
      assert posts[1..][k - 1] == posts[k];
      assert PostDates(posts).value == [PostDate(posts[0]).value] + PostDates(posts[1..]).value;
    }
  }

  /** The dates read are the posts' own, one for one. */
  lemma PostDatesRead(posts: seq<JsonObject>)
    requires PostDates(posts).Ok?
    ensures forall k :: 0 <= k < |posts| ==> PostDate(posts[k]) == Some(PostDates(posts).value[k])
  {
    forall k | 0 <= k < |posts|
      ensures PostDate(posts[k]) == Some(PostDates(posts).value[k])
    {
      PostDateAt(posts, k);
    }
  }

  /** When every post's date reads, so does the whole list. */
  lemma {:induction false} PostDatesAllRead(posts: seq<JsonObject>)
    requires forall k :: 0 <= k < |posts| ==> PostDate(posts[k]).Some?
    ensures PostDates(posts).Ok?
  {
    if posts != [] {
      forall k | 0 <= k < |posts[1..]| ensures PostDate(posts[1..][k]).Some? {
        assert posts[1..][k] == posts[k + 1];
      }
      PostDatesAllRead(posts[1..]);
      assert PostDate(posts[0]).Some?;
    }
  }

  /** A failing list fails on the last post in manifest order whose date
      does not read, the first one the reversed loop meets. */
  lemma {:induction false} PostDatesFailure(posts: seq<JsonObject>)
    requires PostDates(posts).Err?
    ensures exists k :: (0 <= k < |posts| && PostDate(posts[k]).None?
      && PostDates(posts).error == BadDate(Get(posts[k], "date", EpochDate))
      && forall j :: k < j < |posts| ==> PostDate(posts[j]).Some?)
  {
    var r := PostDates(posts[1..]);
    if r.Err? {
      PostDatesFailure(posts[1..]);
      var k :| 0 <= k < |posts[1..]| && PostDate(posts[1..][k]).None?
        && r.error == BadDate(Get(posts[1..][k], "date", EpochDate))
        && forall j :: k < j < |posts[1..]| ==> PostDate(posts[1..][j]).Some?;
      assert posts[k + 1] == posts[1..][k];
      forall j | k + 1 < j < |posts| ensures PostDate(posts[j]).Some? {
        assert posts[j] == posts[1..][j - 1];
      }
      assert PostDates(posts).error == r.error;
    } else {
      PostDatesRead(posts[1..]);
      forall j | 0 < j < |posts| ensures PostDate(posts[j]).Some? {
        assert posts[j] == posts[1..][j - 1];
      }
      assert PostDate(posts[0]).None?;
    }
  }

  lemma StampsCons(d: Date, dates: seq<Date>)
    requires ValidPythonDate(d) && AllValid(dates)
    ensures AllValid([d] + dates)
    ensures Stamps([d] + dates) == [ItemPubDate(d)] + Stamps(dates)
  {
    assert ([d] + dates)[1..] == dates;
  }

  lemma ItemsStep(meta: JsonObject, posts: seq<JsonObject>, i: nat, stamp: string, stamps: seq<string>, sha256Hex: string -> string)
    requires i < |posts| && |stamps| == |posts[i + 1..]|
    ensures Items(meta, posts[i..], [stamp] + stamps, sha256Hex)
      == Items(meta, posts[i + 1..], stamps, sha256Hex) + [Item(posts[i], stamp, sha256Hex), SelfLink(meta)]
  {
    var list := ItemList(posts[i..], [stamp] + stamps, sha256Hex);
    assert posts[i..][1..] == posts[i + 1..];
    assert ([stamp] + stamps)[1..] == stamps;
    assert list == [Item(posts[i], stamp, sha256Hex)] + ItemList(posts[i + 1..], stamps, sha256Hex);
    assert list[1..] == ItemList(posts[i + 1..], stamps, sha256Hex);
    assert Pairs(list, SelfLink(meta)) == Pairs(list[1..], SelfLink(meta)) + [list[0], SelfLink(meta)];
  }

  /** One post's worth of the loop: with its date read, post i's item and
      self link follow the entries of the posts after it. */
  lemma AppendStep(meta: JsonObject, posts: seq<JsonObject>, i: nat, sha256Hex: string -> string)
    requires i < |posts| && PostDates(posts[i + 1..]).Ok? && PostDate(posts[i]).Some?
    ensures PostDates(posts[i..]).Ok?
    ensures Items(meta, posts[i..], Stamps(PostDates(posts[i..]).value), sha256Hex)
      == Items(meta, posts[i + 1..], Stamps(PostDates(posts[i + 1..]).value), sha256Hex)
         + [Item(posts[i], ItemPubDate(PostDate(posts[i]).value), sha256Hex), SelfLink(meta)]
  {
    var later := PostDates(posts[i + 1..]).value;
    var d := PostDate(posts[i]).value;
    PostDatesStep(posts, i, d);
    StampsCons(d, later);
    ItemsStep(meta, posts, i, ItemPubDate(d), Stamps(later), sha256Hex);
  }

  lemma AppendAssociates(a: seq<Element>, b: seq<Element>, c: seq<Element>)
    ensures (a + b) + c == a + (b + c)
  {
  }

  /** Start from the defaults and update them with the metadata file's
      fields when it loads; a file that fails to load leaves them intact. */
  method LoadMetadata(file: MetadataFile) returns (metadata: JsonObject)
    ensures metadata == Metadata(file)
  {
    metadata := Defaults;
    if file.MetadataLoaded? {
      metadata := metadata + file.fields;
    }
  }

  /** How many elements of a list carry the given tag. */
  function CountTag(elements: seq<Element>, tag: string): nat {
    if elements == [] then 0
    else CountTag(elements[..|elements| - 1], tag) + (if elements[|elements| - 1].tag == tag then 1 else 0)
  }

  lemma {:induction false} CountTagAppend(a: seq<Element>, b: seq<Element>, tag: string)
    ensures CountTag(a + b, tag) == CountTag(a, tag) + CountTag(b, tag)
    decreases |b|
  {
    if b != [] {
      assert (a + b)[..|a + b| - 1] == a + b[..|b| - 1];
      assert (a + b)[|a + b| - 1] == b[|b| - 1];
      CountTagAppend(a, b[..|b| - 1], tag);
    } else {
      assert a + b == a;
    }
  }

  lemma {:induction false} CountTagAbsent(elements: seq<Element>, tag: string)
    requires forall k :: 0 <= k < |elements| ==> elements[k].tag != tag
    ensures CountTag(elements, tag) == 0
  {
    if elements != [] {
      CountTagAbsent(elements[..|elements| - 1], tag);
    }
  }

  lemma CountTagPair(x: Element, y: Element, tag: string)
    ensures CountTag([x, y], tag) == (if x.tag == tag then 1 else 0) + (if y.tag == tag then 1 else 0)
  {
    assert [x, y][..1] == [x];
    assert [x][..0] == [];
    assert CountTag([x], tag) == (if x.tag == tag then 1 else 0);
  }

  function Tags(elements: seq<Element>): seq<string> {
    seq(|elements|, i requires 0 <= i < |elements| => elements[i].tag)
  }

  /** A metadata value as the merged dictionary yields it: the file's when
      it has the key, the default otherwise. */
  function MetaValue(file: MetadataFile, key: string, default: string): string {
    if file.MetadataLoaded? && key in file.fields then file.fields[key] else default
  }

  function ManifestPosts(postsFile: PostsFile): seq<JsonObject>
    requires postsFile.PostsLoaded?
  {
    if postsFile.posts.Some? then postsFile.posts.value else []
  }

  /** Element k of n is followed by the link at 2(n-1-k). */
  lemma {:induction false} PairsAt(elements: seq<Element>, link: Element, k: nat)
    requires k < |elements|
    ensures Pairs(elements, link)[2 * (|elements| - 1 - k)] == elements[k]
    ensures Pairs(elements, link)[2 * (|elements| - 1 - k) + 1] == link
  {
    var later := Pairs(elements[1..], link);
    assert Pairs(elements, link) == later + [elements[0], link];
    if k > 0 {
      PairsAt(elements[1..], link, k - 1);
      assert elements[1..][k - 1] == elements[k];
    }
  }

  lemma {:induction false} ItemListAt(posts: seq<JsonObject>, stamps: seq<string>, sha256Hex: string -> string, k: nat)
    requires |stamps| == |posts| && k < |posts|
    ensures ItemList(posts, stamps, sha256Hex)[k] == Item(posts[k], stamps[k], sha256Hex)
  {
    if k > 0 {
      ItemListAt(posts[1..], stamps[1..], sha256Hex, k - 1);
      assert posts[1..][k - 1] == posts[k] && stamps[1..][k - 1] == stamps[k];
    }
  }

  /** Post k of n yields channel entries 2(n-1-k) and 2(n-1-k)+1 (after
      the header): its item, then the self link. */
  lemma ItemsAt(meta: JsonObject, posts: seq<JsonObject>, stamps: seq<string>, sha256Hex: string -> string, k: nat)
    requires |stamps| == |posts| && k < |posts|
    ensures |Items(meta, posts, stamps, sha256Hex)| == 2 * |posts|
    ensures Items(meta, posts, stamps, sha256Hex)[2 * (|posts| - 1 - k)] == Item(posts[k], stamps[k], sha256Hex)
    ensures Items(meta, posts, stamps, sha256Hex)[2 * (|posts| - 1 - k) + 1] == SelfLink(meta)
  {
    PairsAt(ItemList(posts, stamps, sha256Hex), SelfLink(meta), k);
    ItemListAt(posts, stamps, sha256Hex, k);
  }

  /** So the entries come in reverse manifest order, two per post. */
  lemma ItemsLayout(meta: JsonObject, posts: seq<JsonObject>, stamps: seq<string>, sha256Hex: string -> string)
    requires |stamps| == |posts|
    ensures |Items(meta, posts, stamps, sha256Hex)| == 2 * |posts|
    ensures forall k :: 0 <= k < |posts| ==>
      Items(meta, posts, stamps, sha256Hex)[2 * (|posts| - 1 - k)] == Item(posts[k], stamps[k], sha256Hex)
      && Items(meta, posts, stamps, sha256Hex)[2 * (|posts| - 1 - k) + 1] == SelfLink(meta)
  {
    forall k | 0 <= k < |posts|
      ensures Items(meta, posts, stamps, sha256Hex)[2 * (|posts| - 1 - k)] == Item(posts[k], stamps[k], sha256Hex)
      ensures Items(meta, posts, stamps, sha256Hex)[2 * (|posts| - 1 - k) + 1] == SelfLink(meta)
    {
      ItemsAt(meta, posts, stamps, sha256Hex, k);
    }
  }

  /** Interleaving adds one link per element. */
  lemma {:induction false} PairsCount(elements: seq<Element>, link: Element, tag: string)
    ensures CountTag(Pairs(elements, link), tag) == CountTag(elements, tag) + (if link.tag == tag then |elements| else 0)
  {
    if elements != [] {
      PairsCount(elements[1..], link, tag);
      var later, pair := Pairs(elements[1..], link), [elements[0], link];
      assert Pairs(elements, link) == later + pair;
      CountTagAppend(later, pair, tag);
      CountTagPair(pair[0], pair[1], tag);
      assert elements == [elements[0]] + elements[1..];
      CountTagAppend([elements[0]], elements[1..], tag);
      assert [elements[0]][..0] == [];
    }
  }

  lemma {:induction false} CountTagAll(elements: seq<Element>, tag: string)
    requires forall k :: 0 <= k < |elements| ==> elements[k].tag == tag
    ensures CountTag(elements, tag) == |elements|
  {
    if elements != [] {
      CountTagAll(elements[..|elements| - 1], tag);
    }
  }

  /** Each post contributes exactly one item and one self link. */
  lemma ItemsCounts(meta: JsonObject, posts: seq<JsonObject>, stamps: seq<string>, sha256Hex: string -> string)
    requires |stamps| == |posts|
    ensures CountTag(Items(meta, posts, stamps, sha256Hex), AtomLinkTag) == |posts|
    ensures CountTag(Items(meta, posts, stamps, sha256Hex), "item") == |posts|
  {
    var list := ItemList(posts, stamps, sha256Hex);
    forall k | 0 <= k < |list|
      ensures list[k].tag == "item"
    {
      ItemListAt(posts, stamps, sha256Hex, k);
    }
    CountTagAll(list, "item");
    CountTagAbsent(list, AtomLinkTag);
    PairsCount(list, SelfLink(meta), AtomLinkTag);
    PairsCount(list, SelfLink(meta), "item");
  }

  /** The builder writes a feed exactly when the posts file is there and
      every post's date reads. */
  lemma FeedSucceeds(postsFile: PostsFile, metadataFile: MetadataFile, pubDate: string, sha256Hex: string -> string)
    ensures Feed(postsFile, metadataFile, pubDate, sha256Hex).Ok? <==>
      postsFile.PostsLoaded? && forall k :: 0 <= k < |ManifestPosts(postsFile)| ==> PostDate(ManifestPosts(postsFile)[k]).Some?
  {
    if postsFile.PostsLoaded? {
      var posts := ManifestPosts(postsFile);
      if PostDates(posts).Ok? {
        PostDatesRead(posts);
      } else if forall k :: 0 <= k < |posts| ==> PostDate(posts[k]).Some? {
        PostDatesAllRead(posts);
      }
    }
  }

  /** A written feed is `<rss version="2.0">` holding one channel, built
      from the merged metadata, the manifest and the posts' stamps. */
  lemma FeedShape(postsFile: PostsFile, metadataFile: MetadataFile, pubDate: string, sha256Hex: string -> string)
    requires Feed(postsFile, metadataFile, pubDate, sha256Hex).Ok?
    ensures postsFile.PostsLoaded? && PostDates(ManifestPosts(postsFile)).Ok?
    ensures Feed(postsFile, metadataFile, pubDate, sha256Hex).value
      == Rss(Channel(Metadata(metadataFile), ManifestPosts(postsFile), Stamps(PostDates(ManifestPosts(postsFile)).value), pubDate, sha256Hex))
  {
  }

  /** The channel's header, in the order title, link, description,
      language, pubDate, with the metadata file's values where it has them
      and the defaults otherwise. */
  lemma FeedHeader(metadataFile: MetadataFile, posts: seq<JsonObject>, stamps: seq<string>, pubDate: string, sha256Hex: string -> string)
    requires |stamps| == |posts|
    ensures var channel := Channel(Metadata(metadataFile), posts, stamps, pubDate, sha256Hex);
      |channel| >= 5
      && Tags(channel[..5]) == ["title", "link", "description", "language", "pubDate"]
      && channel[0].text == MetaValue(metadataFile, "title", DefaultTitle)
      && channel[1].text == MetaValue(metadataFile, "link", DefaultLink)
      && channel[2].text == MetaValue(metadataFile, "description", DefaultDescription)
      && channel[3].text == MetaValue(metadataFile, "language", DefaultLanguage)
      && channel[4].text == pubDate
  {
    MetadataMerge(metadataFile);
    var header := Header(Metadata(metadataFile), pubDate);
    assert Channel(Metadata(metadataFile), posts, stamps, pubDate, sha256Hex)[..5] == header;
  }

  /** The items of a feed: the channel holds 5 + 2n children, and post k
      of n has its item at position 5 + 2(n-1-k), with the post's date
      written back in RFC 822 form, followed by the self link. */
  lemma FeedEntry(meta: JsonObject, posts: seq<JsonObject>, pubDate: string, sha256Hex: string -> string, k: nat)
    requires PostDates(posts).Ok? && k < |posts|
    ensures PostDate(posts[k]).Some?
    ensures var channel := Channel(meta, posts, Stamps(PostDates(posts).value), pubDate, sha256Hex);
      |channel| == 5 + 2 * |posts|
      && channel[5 + 2 * (|posts| - 1 - k)] == Item(posts[k], ItemPubDate(PostDate(posts[k]).value), sha256Hex)
      && channel[5 + 2 * (|posts| - 1 - k) + 1] == SelfLink(meta)
  {
    PostStampAt(posts, k);
    EntriesAt(meta, posts, Stamps(PostDates(posts).value), pubDate, sha256Hex, k);
  }

  /** The item stamp of post k is post k's own date in RFC 822 form. */
  lemma PostStampAt(posts: seq<JsonObject>, k: nat)
    requires PostDates(posts).Ok? && k < |posts|
    ensures PostDate(posts[k]).Some?
    ensures Stamps(PostDates(posts).value)[k] == ItemPubDate(PostDate(posts[k]).value)
  {
    PostDateAt(posts, k);
    StampAt(PostDates(posts).value, k);
  }

  /** Post k's item and self link sit at 5 + 2(n-1-k) and the place after it. */
  lemma EntriesAt(meta: JsonObject, posts: seq<JsonObject>, stamps: seq<string>, pubDate: string, sha256Hex: string -> string, k: nat)
    requires |stamps| == |posts| && k < |posts|
    ensures var channel := Channel(meta, posts, stamps, pubDate, sha256Hex);
      |channel| == 5 + 2 * |posts|
      && channel[5 + 2 * (|posts| - 1 - k)] == Item(posts[k], stamps[k], sha256Hex)
      && channel[5 + 2 * (|posts| - 1 - k) + 1] == SelfLink(meta)
  {
    var header, items := Header(meta, pubDate), Items(meta, posts, stamps, sha256Hex);
    ItemsAt(meta, posts, stamps, sha256Hex, k);
    var at := 2 * (|posts| - 1 - k);
    assert Channel(meta, posts, stamps, pubDate, sha256Hex) == header + items;
    assert |header| == 5;
    assert (header + items)[5 + at] == items[at];
    assert (header + items)[5 + at + 1] == items[at + 1];
  }

  /** An item's children are title, link, description, pubDate and guid:
      the link from `url`, a missing field as "", the guid the hash of the
      fields run together. */
  lemma ItemFields(post: JsonObject, pubDate: string, sha256Hex: string -> string)
    ensures var item := Item(post, pubDate, sha256Hex);
      item.tag == "item" && Tags(item.children) == ["title", "link", "description", "pubDate", "guid"]
      && item.children[0].text == Get(post, "title", "")
      && item.children[1].text == Get(post, "url", "")
      && item.children[2].text == Get(post, "description", "")
      && item.children[3].text == pubDate
      && item.children[4].text == sha256Hex(GuidInput(post))
  {
  }

  /** The self link is an Atom link with `rel="self"` to the site's
      `feed.xml`, the site link coming from the metadata file when it has one. */
  lemma SelfLinkFields(metadataFile: MetadataFile)
    ensures var link := SelfLink(Metadata(metadataFile));
      link.tag == AtomLinkTag && link.children == []
      && link.attrs == [("rel", "self"), ("href", MetaValue(metadataFile, "link", DefaultLink) + "feed.xml")]
  {
    MetadataMerge(metadataFile);
  }

  /** The number of Atom self links in the channel equals the number of
      posts (none for an empty manifest), and so does the number of items. */
  lemma SelfLinkPerPost(meta: JsonObject, posts: seq<JsonObject>, stamps: seq<string>, pubDate: string, sha256Hex: string -> string)
    requires |stamps| == |posts|
    ensures CountTag(Channel(meta, posts, stamps, pubDate, sha256Hex), AtomLinkTag) == |posts|
    ensures CountTag(Channel(meta, posts, stamps, pubDate, sha256Hex), "item") == |posts|
  {
    var items := Items(meta, posts, stamps, sha256Hex);
    ItemsCounts(meta, posts, stamps, sha256Hex);
    var header := Header(meta, pubDate);
    CountTagAppend(header, items, AtomLinkTag);
    CountTagAppend(header, items, "item");
    CountTagAbsent(header, AtomLinkTag);
    CountTagAbsent(header, "item");
  }

  /** The error paths: a missing posts file writes nothing, and a manifest
      without a `posts` key gives a channel with the header only. */
  lemma FeedEdgeCases(metadataFile: MetadataFile, pubDate: string, sha256Hex: string -> string)
    ensures Feed(PostsMissing, metadataFile, pubDate, sha256Hex) == Err(PostsFileNotFound)
    ensures Feed(PostsLoaded(None), metadataFile, pubDate, sha256Hex) == Ok(Rss(Header(Metadata(metadataFile), pubDate)))
  {
    assert Header(Metadata(metadataFile), pubDate) + [] == Header(Metadata(metadataFile), pubDate);
  }

  /** A post without a date is published on the Unix epoch. */
  lemma MissingDateIsEpoch(post: JsonObject)
    requires "date" !in post
    ensures PostDate(post) == Some(Date(1970, 1, 1))
    ensures ItemPubDate(PostDate(post).value) == "Thu, 01 Jan 1970 00:00:00 +0000"
  {
    EpochPubDate();
  }

  /** The guid hashes the three fields run together with no separator, so
      two different posts can share a guid. */
  lemma GuidCollision()
    ensures var a := map["title" := "T", "date" := "2024-01-01", "url" := "2024-01-01u"];
      var b := map["title" := "T2024-01-01", "date" := "2024-01-01", "url" := "u"];
      a != b && GuidInput(a) == GuidInput(b)
  {
    var a := map["title" := "T", "date" := "2024-01-01", "url" := "2024-01-01u"];
    var b := map["title" := "T2024-01-01", "date" := "2024-01-01", "url" := "u"];
    assert a["title"] != b["title"];
  }

  /** `generate_rss`, step by step: update the default metadata in place,
      add the channel's header, then append the posts' items. The clock
      reading and SHA-256 (as lower-case hex) are parameters. */
  method GenerateRss(postsFile: PostsFile, metadataFile: MetadataFile, now: DateTime, sha256Hex: string -> string)
    returns (feed: Result<Element, FeedError>)
    requires ValidDateTime(now)
    ensures feed == Feed(postsFile, metadataFile, PubDate(now), sha256Hex)
  {
    if postsFile.PostsMissing? {
      return Err(PostsFileNotFound);
    }
    var metadata := LoadMetadata(metadataFile);
    var channel := [
      Leaf("title", Get(metadata, "title", DefaultTitle)),
      Leaf("link", Get(metadata, "link", DefaultLink)),
      Leaf("description", Get(metadata, "description", DefaultDescription)),
      Leaf("language", Get(metadata, "language", DefaultLanguage)),
      Leaf("pubDate", PubDate(now))];
    assert channel == Header(metadata, PubDate(now));
    var posts := if postsFile.posts.Some? then postsFile.posts.value else [];
    var filled := AppendItems(channel, metadata, posts, sha256Hex);
    if filled.Err? {
      return Err(filled.error);
    }
    feed := Ok(Rss(filled.value));
  }

  /** One pass of the loop: the post's date is read (default 1970-01-01),
      its item is filled in, and a self link follows it. */
  method PostEntries(metadata: JsonObject, post: JsonObject, sha256Hex: string -> string)
    returns (entries: Result<seq<Element>, FeedError>)
    ensures PostDate(post).None? ==> entries == Err(BadDate(Get(post, "date", EpochDate)))
    ensures PostDate(post).Some? ==>
      entries == Ok([Item(post, ItemPubDate(PostDate(post).value), sha256Hex), SelfLink(metadata)])
  {
    var published := PostDate(post);
    if published.None? {
      return Err(BadDate(Get(post, "date", EpochDate)));
    }
    var feedUrl := Get(metadata, "link", DefaultLink) + "feed.xml";
    var selfLink := Element(AtomLinkTag, [("rel", "self"), ("href", feedUrl)], "", []);
    var guid := sha256Hex(Get(post, "title", "") + Get(post, "date", "") + Get(post, "url", ""));
    var item := Element("item", [], "", [
      Leaf("title", Get(post, "title", "")),
      Leaf("link", Get(post, "url", "")),
      Leaf("description", Get(post, "description", "")),
      Leaf("pubDate", ItemPubDate(published.value)),
      Leaf("guid", guid)]);
    entries := Ok([item, selfLink]);
  }

  /** The loop over the posts, last to first: each post's date is read
      (default 1970-01-01), its item is filled in and appended to the
      channel, then a self link is appended after it. */
  method AppendItems(channel: seq<Element>, metadata: JsonObject, posts: seq<JsonObject>, sha256Hex: string -> string)
    returns (filled: Result<seq<Element>, FeedError>)
    ensures PostDates(posts).Err? ==> filled == Err(PostDates(posts).error)
    ensures PostDates(posts).Ok? ==> filled == Ok(channel + Items(metadata, posts, Stamps(PostDates(posts).value), sha256Hex))
  {
    var children := channel;
    var i := |posts|;
    while i > 0
      invariant 0 <= i <= |posts|
      invariant PostDates(posts[i..]).Ok?
      invariant children == channel + Items(metadata, posts[i..], Stamps(PostDates(posts[i..]).value), sha256Hex)
    {
      i := i - 1;
      var entries := PostEntries(metadata, posts[i], sha256Hex);
      if entries.Err? {
        assert posts[i..][1..] == posts[i + 1..];
        PostDatesErrorStops(posts, i);
        return Err(entries.error);
      }
      ghost var later := Items(metadata, posts[i + 1..], Stamps(PostDates(posts[i + 1..]).value), sha256Hex);
      assert children == channel + later;
      AppendStep(metadata, posts, i, sha256Hex);
      children := children + entries.value;
      AppendAssociates(channel, later, entries.value);
    }
    assert posts[0..] == posts;
    filled := Ok(children);
  }
}
