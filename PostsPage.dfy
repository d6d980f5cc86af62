/** The posts page script templates/scripts/posts.js: it sorts the decoded
    manifest's posts newest first, in place, and appends one list item per
    post to `#posts-content`, each showing the post's image, its link, its
    date spelled out and its description. */
module PostsPage {
  import opened Decimal
  import opened Calendar
  import opened Dom

  const MonthNames: seq<string> :=
    ["January", "February", "March", "April", "May", "June",
     "July", "August", "September", "October", "November", "December"]

  /** The calendar emoji and the space before a post's date. */
  const CalendarPrefix := "\U{1F5D3}\U{FE0F} "

  /** `formatDate`: the month's English name, the day of the month and the
      year, as "January 5, 2024"; neither number is padded. */
  function FormatDate(d: Day): string {
    MonthNames[d.month - 1] + " " + NatToDecimal(d.day) + ", " + IntToDecimal(d.year)
  }

  lemma MonthNamesDistinct()
    ensures forall i, j :: 0 <= i < j < 12 ==> MonthNames[i] != MonthNames[j]
    ensures forall i, k :: 0 <= i < 12 && 0 <= k < |MonthNames[i]| ==> MonthNames[i][k] != ' '
  {
  }

  /** Where the first space of a string is (its length when it has none). */
  function FirstSpace(s: string): nat {
    if s == [] || s[0] == ' ' then 0 else 1 + FirstSpace(s[1..])
  }

  lemma {:induction false} FirstSpaceAfterWord(x: string, r: string)
    requires forall k :: 0 <= k < |x| ==> x[k] != ' '
    ensures FirstSpace(x + " " + r) == |x|
  {
    if x != [] {
      assert (x + " " + r)[1..] == x[1..] + " " + r;
      FirstSpaceAfterWord(x[1..], r);
    }
  }

  /** A word without spaces followed by a space is read back unambiguously. */
  lemma WordSplit(x: string, y: string, r1: string, r2: string)
    requires x + " " + r1 == y + " " + r2
    requires forall k :: 0 <= k < |x| ==> x[k] != ' '
    requires forall k :: 0 <= k < |y| ==> y[k] != ' '
    ensures x == y && r1 == r2
  {
    FirstSpaceAfterWord(x, r1);
    FirstSpaceAfterWord(y, r2);
    assert x == (x + " " + r1)[..|x|];
    assert y == (y + " " + r2)[..|y|];
    assert r1 == (x + " " + r1)[|x| + 1..];
    assert r2 == (y + " " + r2)[|y| + 1..];
  }

  /** Two different days never print the same. */
  lemma FormatDateInjective(a: Day, b: Day)
    requires FormatDate(a) == FormatDate(b)
    ensures a == b
  {
    var ra, rb := DayAndYear(a), DayAndYear(b);
    MonthNamesDistinct();
    FormatDateSplits(a);
    FormatDateSplits(b);
    WordSplit(MonthNames[a.month - 1], MonthNames[b.month - 1], ra, rb);
    DayAndYearInjective(a, b);
  }

  /** What follows the month name and its space. */
  function DayAndYear(d: Day): string {
    NatToDecimal(d.day) + (", " + IntToDecimal(d.year))
  }

  lemma FormatDateSplits(d: Day)
    ensures FormatDate(d) == MonthNames[d.month - 1] + " " + DayAndYear(d)
  {
  }

  lemma DayAndYearInjective(a: Day, b: Day)
    requires DayAndYear(a) == DayAndYear(b)
    ensures a.day == b.day && a.year == b.year
  {
    var ya, yb := ", " + IntToDecimal(a.year), ", " + IntToDecimal(b.year);
    DecimalPrefixUnique(a.day, b.day, ya, yb);
    assert IntToDecimal(a.year) == ya[2..];
    assert IntToDecimal(b.year) == yb[2..];
    IntToDecimalInjective(a.year, b.year);
  }

  lemma FormatDateExamples()
    ensures FormatDate(Date(2024, 1, 5)) == "January 5, 2024"
    ensures FormatDate(Date(2023, 12, 25)) == "December 25, 2023"
  {
    FormatDateReads(Date(2024, 1, 5), "January", "5", "2024");
    FormatDateReads(Date(2023, 12, 25), "December", "25", "2023");
  }

  lemma FormatDateReads(d: Day, month: string, day: string, year: string)
    requires 1 <= d.month <= 12 && 1000 <= d.year < 10000
    requires month == MonthNames[d.month - 1] && day == NatToDecimal(d.day)
    requires |year| == 4 && year == [DigitChar(d.year / 1000), DigitChar(d.year / 100 % 10), DigitChar(d.year / 10 % 10), DigitChar(d.year % 10)]
    ensures FormatDate(d) == month + " " + day + ", " + year
  {
    FourDigitDecimal(d.year, year);
  }

  /** The sort's comparator `new Date(b.date) - new Date(a.date)`, with
      each date as its day count: negative when `a` is the newer post. */
  function Compare(a: WebPost, b: WebPost): int {
    Ordinal(b.date) - Ordinal(a.date)
  }

  /** Post `a` is not older than post `b`. */
  predicate NotOlder(a: WebPost, b: WebPost) {
    !Before(a.date, b.date)
  }

  /** The comparator orders two posts exactly as their calendar days do:
      it is negative when the first is newer, zero on the same day. */
  lemma CompareAgrees(a: WebPost, b: WebPost)
    ensures Compare(a, b) < 0 <==> Before(b.date, a.date)
    ensures Compare(a, b) == 0 <==> a.date == b.date
    ensures Compare(a, b) <= 0 <==> NotOlder(a, b)
  {
    OrdinalOrdersDates(b.date, a.date);
    OrdinalOrdersDates(a.date, b.date);
  }

  /** Newest first: no post is older than one after it. */
  predicate NewestFirstOrder(s: seq<WebPost>) {
    forall i, j :: 0 <= i < j < |s| ==> NotOlder(s[i], s[j])
  }

  /** Insert `x` into newest-first `t`, after every post at least as new. */
  function Insert(t: seq<WebPost>, x: WebPost): seq<WebPost> {
    if t == [] || NotOlder(t[|t| - 1], x) then t + [x]
    else Insert(t[..|t| - 1], x) + [t[|t| - 1]]
  }

  /** The posts after `data.posts.sort(...)`: the stable newest-first order
      (the comparator says nothing about posts of the same day, and a stable
      sort keeps their manifest order). */
  function NewestFirst(s: seq<WebPost>): seq<WebPost> {
    if s == [] then [] else Insert(NewestFirst(s[..|s| - 1]), s[|s| - 1])
  }

  /** The posts of a list published on day `k`, in list order. */
  function OnDay(s: seq<WebPost>, k: Date): seq<WebPost> {
    if s == [] then []
    else OnDay(s[..|s| - 1], k) + (if s[|s| - 1].date == k then [s[|s| - 1]] else [])
  }

  lemma {:induction false} InsertPermutes(t: seq<WebPost>, x: WebPost)
    ensures multiset(Insert(t, x)) == multiset(t) + multiset{x}
    decreases |t|
  {
    if !(t == [] || NotOlder(t[|t| - 1], x)) {
      InsertPermutes(t[..|t| - 1], x);
      assert t == t[..|t| - 1] + [t[|t| - 1]];
    }
  }

  /** Every post of an insertion is the inserted one or one of the list's. */
  lemma {:induction false} InsertMembers(t: seq<WebPost>, x: WebPost, i: nat)
    requires i < |Insert(t, x)|
    ensures Insert(t, x)[i] == x || Insert(t, x)[i] in t
    decreases |t|
  {
    if !(t == [] || NotOlder(t[|t| - 1], x)) {
      var front := t[..|t| - 1];
      assert Insert(t, x) == Insert(front, x) + [t[|t| - 1]];
      if i < |Insert(front, x)| {
        InsertMembers(front, x, i);
        assert Insert(front, x)[i] in front ==> Insert(front, x)[i] in t;
      }
    }
  }

  lemma {:induction false} InsertOrdered(t: seq<WebPost>, x: WebPost)
    requires NewestFirstOrder(t)
    ensures NewestFirstOrder(Insert(t, x))
    decreases |t|
  {
    if t == [] || NotOlder(t[|t| - 1], x) {
    } else {
      var front, last := t[..|t| - 1], t[|t| - 1];
      InsertOrdered(front, x);
      var u := Insert(front, x);
      forall i | 0 <= i < |u| ensures NotOlder(u[i], last) {
        InsertMembers(front, x, i);
        if u[i] != x {
          var k :| 0 <= k < |front| && front[k] == u[i];
          assert t[k] == u[i];
        }
      }
      assert Insert(t, x) == u + [last];
    }
  }

  lemma {:induction false} OnDayAppend(a: seq<WebPost>, b: seq<WebPost>, k: Date)
    ensures OnDay(a + b, k) == OnDay(a, k) + OnDay(b, k)
    decreases |b|
  {
    if b == [] {
      assert a + b == a;
    } else {
      assert (a + b)[..|a + b| - 1] == a + b[..|b| - 1];
      assert (a + b)[|a + b| - 1] == b[|b| - 1];
      OnDayAppend(a, b[..|b| - 1], k);
    }
  }

  /** Insertion puts `x` after the posts of its own day. */
  lemma {:induction false} InsertOnDay(t: seq<WebPost>, x: WebPost, k: Date)
    ensures OnDay(Insert(t, x), k) == OnDay(t, k) + (if x.date == k then [x] else [])
    decreases |t|
  {
    if t == [] || NotOlder(t[|t| - 1], x) {
      OnDayAppend(t, [x], k);
      assert [x][..0] == [];
    } else {
      var front, last := t[..|t| - 1], t[|t| - 1];
      var u := Insert(front, x);
      assert Insert(t, x) == u + [last];
      InsertOnDay(front, x, k);
      OnDayAppend(u, [last], k);
      OnDaySingle(last, k);
      assert OnDay(t, k) == OnDay(front, k) + OnDay([last], k);
      assert last.date != x.date;
    }
  }

  lemma OnDaySingle(p: WebPost, k: Date)
    ensures OnDay([p], k) == if p.date == k then [p] else []
  {
    assert [p][..0] == [];
  }

  /** After the sort, posts are newest first. */
  lemma {:induction false} NewestFirstOrdered(s: seq<WebPost>)
    ensures NewestFirstOrder(NewestFirst(s))
  {
    if s != [] {
      NewestFirstOrdered(s[..|s| - 1]);
      InsertOrdered(NewestFirst(s[..|s| - 1]), s[|s| - 1]);
    }
  }

  /** The sort only rearranges the posts. */
  lemma {:induction false} NewestFirstPermutes(s: seq<WebPost>)
    ensures multiset(NewestFirst(s)) == multiset(s)
  {
    if s != [] {
      NewestFirstPermutes(s[..|s| - 1]);
      InsertPermutes(NewestFirst(s[..|s| - 1]), s[|s| - 1]);
      assert s == s[..|s| - 1] + [s[|s| - 1]];
    }
  }

  /** Posts of the same day keep their manifest order. */
  lemma {:induction false} NewestFirstStable(s: seq<WebPost>, k: Date)
    ensures OnDay(NewestFirst(s), k) == OnDay(s, k)
  {
    if s != [] {
      NewestFirstStable(s[..|s| - 1], k);
      InsertOnDay(NewestFirst(s[..|s| - 1]), s[|s| - 1], k);
    }
  }

  /** Each post is counted once on its own day. */
  lemma {:induction false} OnDayCount(s: seq<WebPost>, p: WebPost)
    ensures multiset(OnDay(s, p.date))[p] == multiset(s)[p]
  {
    if s != [] {
      OnDayCount(s[..|s| - 1], p);
      assert s == s[..|s| - 1] + [s[|s| - 1]];
    }
  }

  /** Lists with the same posts on every day hold the same posts. */
  lemma SameDaysSamePosts(u: seq<WebPost>, v: seq<WebPost>)
    requires forall k :: OnDay(u, k) == OnDay(v, k)
    ensures multiset(u) == multiset(v)
  {
    forall p ensures multiset(u)[p] == multiset(v)[p] {
      OnDayCount(u, p);
      OnDayCount(v, p);
    }
  }

  /** The last post of a newest-first list is the oldest. */
  lemma OldestLast(u: seq<WebPost>, e: WebPost)
    requires NewestFirstOrder(u) && e in u
    ensures NotOlder(e, u[|u| - 1])
  {
    var i :| 0 <= i < |u| && u[i] == e;
    if i < |u| - 1 {
      assert NotOlder(u[i], u[|u| - 1]);
    }
  }

  /** Newest-first lists that agree day by day end with the same post. */
  lemma LastPostsAgree(u: seq<WebPost>, v: seq<WebPost>)
    requires NewestFirstOrder(u) && NewestFirstOrder(v)
    requires forall k :: OnDay(u, k) == OnDay(v, k)
    requires |u| == |v| > 0
    ensures u[|u| - 1] == v[|v| - 1]
  {
    var n := |u| - 1;
    var lu, lv := u[n], v[n];
    SameDaysSamePosts(u, v);
    assert lv in multiset(u) && lu in multiset(v);
    OldestLast(u, lv);
    OldestLast(v, lu);
    assert !Before(lv.date, lu.date) && !Before(lu.date, lv.date);
    var d := lu.date;
    assert lv.date == d;
    var ou, ov := OnDay(u, d), OnDay(v, d);
    assert ou == OnDay(u[..n], d) + [lu];
    assert ov == OnDay(v[..n], d) + [lv];
    assert ou == ov;
    assert ou[|ou| - 1] == lu;
    assert ov[|ov| - 1] == lv;
  }

  /** Dropping the same last post keeps the lists in agreement day by day. */
  lemma PrefixDaysAgree(u: seq<WebPost>, v: seq<WebPost>, last: WebPost)
    requires forall k :: OnDay(u + [last], k) == OnDay(v + [last], k)
    ensures forall k :: OnDay(u, k) == OnDay(v, k)
  {
    forall k ensures OnDay(u, k) == OnDay(v, k) {
      var ou, ov := OnDay(u + [last], k), OnDay(v + [last], k);
      assert (u + [last])[..|u|] == u && (v + [last])[..|v|] == v;
      if last.date == k {
        assert OnDay(u, k) == ou[..|ou| - 1];
        assert OnDay(v, k) == ov[..|ov| - 1];
      } else {
        assert OnDay(u, k) == ou && OnDay(v, k) == ov;
      }
    }
  }

  /** Two newest-first lists with the same posts, in the same order, on
      every day are the same list. */
  lemma {:induction false} OrderedSameDaysEqual(u: seq<WebPost>, v: seq<WebPost>)
    requires NewestFirstOrder(u) && NewestFirstOrder(v)
    requires forall k :: OnDay(u, k) == OnDay(v, k)
    ensures u == v
    decreases |u|
  {
    SameDaysSamePosts(u, v);
    assert |u| == |multiset(u)| == |multiset(v)| == |v|;
    if u != [] {
      var n := |u| - 1;
      LastPostsAgree(u, v);
      assert u == u[..n] + [u[n]] && v == v[..n] + [u[n]];
      PrefixDaysAgree(u[..n], v[..n], u[n]);
      OrderedSameDaysEqual(u[..n], v[..n]);
    }
  }

  /** A stable newest-first sort has one possible outcome: any list that is
      newest first and keeps each day's posts in manifest order is
      `NewestFirst` of the manifest, whatever algorithm produced it. */
  lemma StableSortUnique(s: seq<WebPost>, u: seq<WebPost>)
    requires NewestFirstOrder(u)
    requires forall k :: OnDay(u, k) == OnDay(s, k)
    ensures u == NewestFirst(s)
  {
    NewestFirstOrdered(s);
    forall k ensures OnDay(NewestFirst(s), k) == OnDay(s, k) {
      NewestFirstStable(s, k);
    }
    OrderedSameDaysEqual(u, NewestFirst(s));
  }

  /** The list item `fetchPosts` builds for a post: the image, then a block
      with the link to the post, the date line and the description. */
  function PostItem(p: WebPost): Node {
    ListItem("post-dropdown-item", [
      Image(ImageSource(p.imagePath), p.title, "post-image"),
      Division("post-content", [
        Anchor(p.title, p.path, "dropdown-link"),
        Paragraph(CalendarPrefix + FormatDate(p.date), "post-date"),
        Paragraph(p.description, "post-description")])])
  }

  function PostItems(posts: seq<WebPost>): (items: seq<Node>)
    ensures |items| == |posts|
  {
    seq(|posts|, i requires 0 <= i < |posts| => PostItem(posts[i]))
  }

  lemma PostItemsStep(s: seq<WebPost>, i: nat)
    requires i < |s|
    ensures PostItems(s[..i + 1]) == PostItems(s[..i]) + [PostItem(s[i])]
  {
    var longer, shorter := PostItems(s[..i + 1]), PostItems(s[..i]);
    forall k | 0 <= k <= i
      ensures longer[k] == (shorter + [PostItem(s[i])])[k]
    {
      if k < i {
        assert s[..i + 1][k] == s[..i][k];
      }
    }
  }

  /** Where each field of a post appears in its list item: the image shows
      the post's image (or the fallback) with the title as its alternative
      text; the content block holds the link (title as text, path as
      target), then the date line, then the description. */
  lemma PostItemFields(p: WebPost)
    ensures var item := PostItem(p);
      item.ListItem? && item.className == "post-dropdown-item" && |item.children| == 2
      && item.children[0] == Image(ImageSource(p.imagePath), p.title, "post-image")
      && item.children[1].Division? && item.children[1].className == "post-content"
      && |item.children[1].children| == 3
      && item.children[1].children[0] == Anchor(p.title, p.path, "dropdown-link")
      && item.children[1].children[1].Paragraph?
      && item.children[1].children[1].className == "post-date"
      && item.children[1].children[1].text[..|CalendarPrefix|] == CalendarPrefix
      && item.children[1].children[1].text[|CalendarPrefix|..] == FormatDate(p.date)
      && item.children[1].children[2] == Paragraph(p.description, "post-description")
  {
    var line := CalendarPrefix + FormatDate(p.date);
    assert line[..|CalendarPrefix|] == CalendarPrefix;
    assert line[|CalendarPrefix|..] == FormatDate(p.date);
  }

  /** Two posts of different days show different date lines, and the item
      a post gets tells its title, path, description and day back. */
  lemma PostItemShowsPost(p: WebPost, q: WebPost)
    requires PostItem(p) == PostItem(q)
    ensures p.title == q.title && p.path == q.path && p.description == q.description && p.date == q.date
  {
    var dp := PostItem(p).children[1].children[1].text;
    assert dp == CalendarPrefix + FormatDate(p.date);
    assert FormatDate(p.date) == dp[|CalendarPrefix|..];
    assert FormatDate(q.date) == (CalendarPrefix + FormatDate(q.date))[|CalendarPrefix|..];
    FormatDateInjective(p.date, q.date);
  }

  /** Move the post at index `i` left past the older posts before it: the
      prefix `a[..i]`, newest first, becomes `a[..i + 1]`, newest first. */
  method InsertAt(a: array<WebPost>, i: nat)
    requires i < a.Length
    modifies a
    ensures a[..i + 1] == Insert(old(a[..i]), old(a[i]))
    ensures a[i + 1..] == old(a[i + 1..])
  {
    ghost var t, rest := a[..i], a[i + 1..];
    var x := a[i];
    assert a[..] == t + [x] + [] + rest;
    // `front` is still to be scanned, `back` has been passed over.
    ghost var front, back := t, [];
    var j, done := i, false;
    while j > 0 && !done
      invariant j == |front| && front + back == t
      invariant a[..] == front + [x] + back + rest
      invariant Insert(t, x) == Insert(front, x) + back
      invariant done ==> j > 0 && NotOlder(front[j - 1], x)
      decreases j, !done
    {
      Layout(front, x, back, rest);
      var c := Comparator(a[j - 1], x);
      if c > 0 {
        SwapDown(a, j);
        SwapLeft(front, x, back, rest);
        front, back := front[..j - 1], [front[j - 1]] + back;
        j := j - 1;
      } else {
        done := true;
      }
    }
    Placed(t, front, x, back, rest);
  }

  /** Exchange the cell at `j` with the one before it. */
  method SwapDown(a: array<WebPost>, j: nat)
    requires 0 < j < a.Length
    modifies a
    ensures a[..] == old(a[..])[j - 1 := old(a[j])][j := old(a[j - 1])]
  {
    ghost var before := a[..];
    var older := a[j - 1];
    a[j - 1] := a[j];
    assert a[..] == before[j - 1 := before[j]];
    a[j] := older;
  }

  /** Where the pieces sit while `x` moves left. */
  lemma Layout(front: seq<WebPost>, x: WebPost, back: seq<WebPost>, rest: seq<WebPost>)
    requires front != []
    ensures (front + [x] + back + rest)[|front| - 1] == front[|front| - 1]
    ensures (front + [x] + back + rest)[|front|] == x
  {
  }

  /** Swapping `x` with the older post before it moves that post from
      `front` to `back`, and the insertion still ends the same way. */
  lemma SwapLeft(front: seq<WebPost>, x: WebPost, back: seq<WebPost>, rest: seq<WebPost>)
    requires front != [] && !NotOlder(front[|front| - 1], x)
    ensures var j := |front|;
      (front + [x] + back + rest)[j - 1 := x][j := front[j - 1]] == front[..j - 1] + [x] + ([front[j - 1]] + back) + rest
    ensures var j := |front|;
      front[..j - 1] + ([front[j - 1]] + back) == front + back
    ensures var j := |front|;
      Insert(front[..j - 1], x) + ([front[j - 1]] + back) == Insert(front, x) + back
  {
    var j := |front|;
    var shorter, passed := front[..j - 1], [front[j - 1]] + back;
    assert front == shorter + [front[j - 1]];
    var u := (front + [x] + back + rest)[j - 1 := x][j := front[j - 1]];
    var v := shorter + [x] + passed + rest;
    assert |u| == |v|;
    forall k | 0 <= k < |u| ensures u[k] == v[k] {
      if k < j - 1 {
      } else if k == j - 1 || k == j {
      } else if k < j + 1 + |back| {
        assert u[k] == back[k - j - 1];
      } else {
        assert u[k] == rest[k - j - 1 - |back|];
      }
    }
  }

  /** When the scan stops, the first `|t| + 1` cells hold `Insert(t, x)`. */
  lemma Placed(t: seq<WebPost>, front: seq<WebPost>, x: WebPost, back: seq<WebPost>, rest: seq<WebPost>)
    requires front + back == t
    requires Insert(t, x) == Insert(front, x) + back
    requires front == [] || NotOlder(front[|front| - 1], x)
    ensures (front + [x] + back + rest)[..|t| + 1] == Insert(t, x)
    ensures (front + [x] + back + rest)[|t| + 1..] == rest
  {
    assert Insert(front, x) == front + [x];
  }

  /** A call of the sort's comparator: positive exactly when `b` is the
      newer post and so goes first. */
  method Comparator(a: WebPost, b: WebPost) returns (c: int)
    ensures c > 0 <==> !NotOlder(a, b)
    ensures c == Compare(a, b)
  {
    c := Ordinal(b.date) - Ordinal(a.date);
    CompareAgrees(a, b);
  }

  lemma NewestFirstStep(s: seq<WebPost>, i: nat)
    requires i < |s|
    ensures NewestFirst(s[..i + 1]) == Insert(NewestFirst(s[..i]), s[i])
  {
    assert s[..i + 1][..i] == s[..i];
  }

  /** `data.posts.sort((a, b) => new Date(b.date) - new Date(a.date))`,
      by insertion: the array ends up newest first, stably. */
  method SortNewestFirst(a: array<WebPost>)
    modifies a
    ensures a[..] == NewestFirst(old(a[..]))
  {
    ghost var s := a[..];
    var i := 0;
    while i < a.Length
      invariant 0 <= i <= a.Length
      invariant a[..i] == NewestFirst(s[..i])
      invariant a[i..] == s[i..]
    {
      InsertAt(a, i);
      NewestFirstStep(s, i);
      i := i + 1;
    }
    assert s[..a.Length] == s;
  }

  /** `fetchPosts` once the manifest has arrived: nothing happens when the
      response is not ok, the container is missing or the data has no
      posts (each throws before any item is appended); otherwise the posts
      are sorted in place and one item per post is appended, newest first. */
  method FetchPosts(ok: bool, posts: array?<WebPost>, container: Container?)
    modifies posts, container
    ensures container != null ==>
      container.children == old(container.children)
        + (if ok && posts != null then PostItems(NewestFirst(old(posts[..]))) else [])
    ensures posts != null ==>
      posts[..] == if ok && container != null then NewestFirst(old(posts[..])) else old(posts[..])
  {
    if !ok || container == null || posts == null {
      return;
    }
    SortNewestFirst(posts);
    ghost var sorted := posts[..];
    var i := 0;
    while i < posts.Length
      invariant 0 <= i <= posts.Length
      invariant posts[..] == sorted
      invariant container.children == old(container.children) + PostItems(sorted[..i])
    {
      var post := posts[i];
      var postContent := Division("post-content", [
        Anchor(post.title, post.path, "dropdown-link"),
        Paragraph(CalendarPrefix + FormatDate(post.date), "post-date"),
        Paragraph(post.description, "post-description")]);
      var postItem := ListItem("post-dropdown-item", [
        Image(ImageSource(post.imagePath), post.title, "post-image"),
        postContent]);
      assert postItem == PostItem(sorted[i]);
      container.AppendChild(postItem);
      PostItemsStep(sorted, i);
      i := i + 1;
    }
    assert sorted[..posts.Length] == sorted;
  }

  /** Two posts published on 1 January and 1 June 2024, listed in that
      order, come out June first. */
  lemma NewerPostFirst(a: WebPost, b: WebPost)
    requires a.date == Date(2024, 1, 1) && b.date == Date(2024, 6, 1)
    ensures NewestFirst([a, b]) == [b, a]
  {
    assert [a, b][..1] == [a];
    assert [a][..0] == [];
    assert NewestFirst([a]) == Insert([], a) == [a];
    assert Insert([a], b) == Insert([], b) + [a];
  }
}
