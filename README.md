# blog.notashelf.dev: feed builder and page scripts, modelled in Dafny

This is a model of the programmed parts of the blog at blog.notashelf.dev, with proofs about them.

**The RSS feed builder.** `generate_rss` in tools/json2rss.py reads the posts manifest and an optional metadata file. From them it builds the RSS 2.0 element tree:
- a channel header of title, link, description, language and build time;
- then, for each post from the last to the first, an `item` followed by an Atom `rel="self"` link.

Each item's date is read as `%Y-%m-%d` and printed in the RFC 822 form of section 5 of RFC 822, with the four-digit year of section 5.2.14 of RFC 1123. Each item's guid hashes the post's title, date and url run together.

**The browser scripts.**
- templates/scripts/posts.js sorts the manifest newest first in place. It appends one list item per post, with the date spelled out as "January 5, 2024".
- static/posts.js is the other listing script. Unlike templates/scripts/posts.js, it keeps the manifest order and shows no date.
- static/scripts/dropdown.js appends one bare link per post.
- templates/scripts/redirect.js counts down from 5 and then sends the browser to `/`.
- static/scripts/copyright.js prints the copyright year or years.

**Modules.**

| file | contents |
|---|---|
| `Wrappers.dfy` | `Option` and `Result` |
| `Decimal.dfy` | decimal digit strings as JavaScript and Python print them |
| `Calendar.dfy` | the proleptic Gregorian calendar: day count, weekday, calendar order |
| `DateFormats.dfy` | the `strptime("%Y-%m-%d")` reader, and the `strftime` RFC 822 printer with a reader as its partner |
| `RssFeed.dfy` | the feed as a function of its inputs (`Feed`), and `GenerateRss`, the builder's loop proved equal to it |
| `Dom.dfy` | the element records the scripts create, the container they append to, and the browser's view of a manifest post |
| `PostsPage.dfy` | templates/scripts/posts.js |
| `StaticPosts.dfy` | static/posts.js |
| `Dropdown.dfy` | static/scripts/dropdown.js |
| `Redirect.dfy` | templates/scripts/redirect.js |
| `Copyright.dfy` | static/scripts/copyright.js |

**What the scripts do not have.** None of the scripts has loading, empty or error states, an oldest-first mode, a result limit, or relative dates. A failed fetch only stops a script before it appends anything. Every date shown is an absolute date.

## Model

| member | source | states |
|---|---|---|
| RssFeed.Metadata | tools/json2rss.py:20-32 | the four defaults, updated with the fields of a loaded metadata file; `MetadataMerge` states which keys it has and which value each takes |
| RssFeed.MetadataMerge | tools/json2rss.py:20-32 | the merged metadata has exactly the default keys plus the file's keys; the file's values win; keys the file lacks keep their defaults; with no file, or a file that fails to load, the defaults stand unchanged |
| RssFeed.LoadMetadata | tools/json2rss.py:20-32 | starting from the four defaults and updating them with a loaded file's fields yields the merged metadata |
| RssFeed.Header | tools/json2rss.py:36-48 | the five channel header children built from the metadata and the build time; `FeedHeader` states their tags, order and texts |
| RssFeed.FeedHeader | tools/json2rss.py:34-48 | the channel built from the merged metadata starts with title, link, description, language, pubDate, in that order; each text is the metadata file's value when it has the key and the built-in default otherwise; pubDate is the build time |
| RssFeed.Item | tools/json2rss.py:53-76 | the `item` element for one post; `ItemFields` states its children and their texts |
| RssFeed.ItemFields | tools/json2rss.py:53-76 | an item's children are title, link, description, pubDate, guid in that order; the link comes from `url`; a missing field is ""; the guid is the hash of title, date and url run together |
| RssFeed.SelfLink | tools/json2rss.py:63-69 | the Atom self link appended after every item; `SelfLinkFields` states its tag, attributes and target |
| RssFeed.SelfLinkFields | tools/json2rss.py:63-69 | the self link is an Atom link with `rel="self"` and `href` = the site link (the metadata's or the default) + "feed.xml", and no children |
| RssFeed.FeedEntry | tools/json2rss.py:51-76 | when every date of a manifest of n posts reads, its channel has 5 + 2n children; post k of n has its item at 5 + 2(n-1-k) and a self link right after; so items run in reverse manifest order, each dated by its own `date` in RFC 822 form |
| RssFeed.ItemsAt | tools/json2rss.py:51-69 | the entries after the header number 2n; post k's item, with stamp k as its date, sits at 2(n-1-k) and a self link at 2(n-1-k)+1 |
| RssFeed.ItemsLayout | tools/json2rss.py:51-69 | the same for every post at once: the entries run in reverse manifest order, each item followed by a self link |
| RssFeed.EntriesAt | tools/json2rss.py:34-69 | after the five header elements, post k's item and self link sit at 5 + 2(n-1-k) and the place after it |
| RssFeed.ItemsCounts | tools/json2rss.py:51-69 | the entries hold exactly n items and n Atom self links |
| RssFeed.SelfLinkPerPost | tools/json2rss.py:51-69 | the whole channel holds exactly one Atom self link per post and one item per post, so an empty manifest has none |
| RssFeed.Feed | tools/json2rss.py:11-76 | the whole feed as a function of its inputs; `FeedShape`, `FeedSucceeds` and `FeedEntry` state its shape, when it is built and what each item holds |
| RssFeed.FeedShape | tools/json2rss.py:11-76 | a written feed is `<rss version="2.0">` with one channel, built from the merged metadata, the manifest and each post's date in RFC 822 form: the header, then the posts' items and self links |
| RssFeed.FeedSucceeds | tools/json2rss.py:12-61 | a feed is written if and only if the posts file exists and every post's date (default 1970-01-01) reads as `%Y-%m-%d` |
| RssFeed.FeedEdgeCases | tools/json2rss.py:12-51 | a missing posts file gives the not-found error; a manifest without `posts` gives a channel with the header only |
| RssFeed.PostDates | tools/json2rss.py:52-60 | when all dates read, there is one valid date per post |
| RssFeed.PostDate | tools/json2rss.py:58-60 | the date a post's `date` field reads as, the field defaulting to "1970-01-01"; `PostDateAt`, `MissingDateIsEpoch` and `PostDatesFailure` state its use |
| RssFeed.PostDateAt | tools/json2rss.py:52-60 | when all dates read, date k of the list is the one post k's own `date` reads as |
| RssFeed.PostDatesRead | tools/json2rss.py:52-60 | when all dates read, every post's own `date` reads |
| RssFeed.PostStampAt | tools/json2rss.py:52-61 | item k's pubDate text is post k's own date in RFC 822 form |
| RssFeed.PostDatesAllRead | tools/json2rss.py:52-60 | when every post's date reads, the whole list reads |
| RssFeed.PostDatesFailure | tools/json2rss.py:52-60 | a failure names the date of the last post in manifest order whose date does not read; every post after it reads; this is the first failure the reversed loop meets |
| RssFeed.PostDatesErrorStops | tools/json2rss.py:52-60 | once a later part of the manifest fails, the whole manifest fails with that same error |
| RssFeed.MissingDateIsEpoch | tools/json2rss.py:58-60 | a post without `date` is dated 1970-01-01, printed "Thu, 01 Jan 1970 00:00:00 +0000" |
| RssFeed.GuidCollision | tools/json2rss.py:71-75 | two different posts can share a guid, because the three fields are joined without a separator |
| RssFeed.PostEntries | tools/json2rss.py:53-76 | one pass of the loop: a date that does not read raises the date error; otherwise the entries are the post's item and a self link |
| RssFeed.AppendItems | tools/json2rss.py:51-76 | the loop from the last post to the first leaves the channel followed by the feed's item entries, or stops with the error of the first bad date it meets |
| RssFeed.GenerateRss | tools/json2rss.py:11-76 | the builder returns exactly `Feed` of its inputs, with the clock reading printed as the channel's pubDate |
| DateFormats.ParseIsoDate | tools/json2rss.py:58-60 | whatever `strptime("%Y-%m-%d")` accepts is a valid date of years 1 to 9999 |
| DateFormats.IsoDateRoundTrip | tools/json2rss.py:58-60 | every valid date written as `YYYY-MM-DD` reads back as itself |
| DateFormats.ParseFields | tools/json2rss.py:58-60 | four digits, a dash, a two-character month token, a dash and a two-character day token read as the date they spell when year and day are in range |
| DateFormats.LenientForms | tools/json2rss.py:58-60 | unpadded months and days, and a space-padded day, are accepted |
| DateFormats.RejectedForms | tools/json2rss.py:58-60 | rejected: February 29 outside a leap year, month 13, extra text after the day, a two-digit year, the year 0 |
| DateFormats.PubDate | tools/json2rss.py:46-48 | the RFC 822 rendering is always 31 characters |
| DateFormats.LayoutFields | tools/json2rss.py:46-48 | the positions of weekday, day, month, year, hour, minute, second and the "+0000" zone in the rendering |
| DateFormats.PubDateRoundTrip | tools/json2rss.py:46-48 | reading the RFC 822 rendering of a moment gives the moment back, so the rendering names it unambiguously |
| DateFormats.ItemPubDate | tools/json2rss.py:58-61 | the RFC 822 date of an item, 31 characters long; `ItemPubDateReadsBack` and `ItemPubDateMidnight` state that it reads back as the same day at midnight UTC |
| DateFormats.ItemPubDateReadsBack | tools/json2rss.py:58-61 | an item's pubDate reads back as midnight UTC of the post's day |
| DateFormats.ItemPubDateMidnight | tools/json2rss.py:58-61 | an item's pubDate always ends " 00:00:00 +0000" |
| DateFormats.EpochPubDate | tools/json2rss.py:58-60 | the default date "1970-01-01" reads as 1 January 1970 and prints as "Thu, 01 Jan 1970 00:00:00 +0000" |
| Calendar.NextDayWeekday | tools/json2rss.py:46-48 | the weekday printed as `%a` advances by one, modulo 7, from each day to the next |
| Calendar.EpochIsThursday | tools/json2rss.py:58-60 | 1 January 1970 is a Thursday |
| Calendar.OrdinalOrdersDates | templates/scripts/posts.js:41-43 | for valid dates, the day count orders dates as the calendar does; equal counts mean equal dates |
| Dom.ImageSource | templates/scripts/posts.js:46-51 | the image is the post's `imagePath` when it is present and non-empty, and the fallback avatar otherwise; it is never empty |
| Dom.Container.AppendChild | templates/scripts/posts.js:76 | the child goes at the end and nothing already there moves |
| PostsPage.FormatDate | templates/scripts/posts.js:1-24 | the "Month D, YYYY" spelling of a day; `FormatDateInjective` proves that different days get different strings, and `FormatDateExamples` fixes concrete outputs |
| PostsPage.FormatDateInjective | templates/scripts/posts.js:1-24 | two different days never format the same: month name, unpadded day and year are read back unambiguously |
| PostsPage.FormatDateExamples | templates/scripts/posts.js:1-24 | 2024-01-05 gives "January 5, 2024"; 2023-12-25 gives "December 25, 2023" |
| PostsPage.CompareAgrees | templates/scripts/posts.js:41-43 | the comparator `date(b) - date(a)` is negative exactly when `a` is newer, zero exactly on the same day, and at most zero exactly when `a` is not older |
| PostsPage.Comparator | templates/scripts/posts.js:42 | one comparator call is positive exactly when the second post is newer and so must go first |
| PostsPage.NewestFirst | templates/scripts/posts.js:41-43 | the stable newest-first order of the posts; `NewestFirstOrdered`, `NewestFirstPermutes`, `NewestFirstStable` and `StableSortUnique` state its properties |
| PostsPage.NewestFirstOrdered | templates/scripts/posts.js:41-43 | after the sort no post is older than one after it |
| PostsPage.NewestFirstPermutes | templates/scripts/posts.js:41-43 | the sort only rearranges the posts (same multiset) |
| PostsPage.NewestFirstStable | templates/scripts/posts.js:41-43 | posts of the same day keep their manifest order |
| PostsPage.StableSortUnique | templates/scripts/posts.js:41-43 | any newest-first list that keeps each day's posts in manifest order is the sort's result, so a stable sort has exactly one possible outcome |
| PostsPage.NewerPostFirst | templates/scripts/posts.js:41-43 | posts of 1 January and 1 June 2024, listed in that order, come out June first |
| PostsPage.InsertAt | templates/scripts/posts.js:41-43 | moving post i left past the older posts before it turns the sorted prefix of i posts into the sorted prefix of i + 1, and leaves the rest of the array alone |
| PostsPage.SortNewestFirst | templates/scripts/posts.js:41-43 | the in-place sort leaves the array equal to the stable newest-first order of its old contents |
| PostsPage.PostItem | templates/scripts/posts.js:45-76 | the list item built for one post; `PostItemFields` states where each field of the post appears in it, and `PostItemShowsPost` that the item determines the post |
| PostsPage.PostItemFields | templates/scripts/posts.js:47-75 | the item is a `post-dropdown-item` holding the image (the post's image or the fallback, with the title as alternative text) and a `post-content` block of three children: the link with the title as text and the path as target, the date line "🗓️ " followed by the spelled-out day, and the description |
| PostsPage.PostItemShowsPost | templates/scripts/posts.js:45-76 | equal list items come from posts with equal title, path, description and day |
| PostsPage.FetchPosts | templates/scripts/posts.js:26-80 | with an ok response, a container and a posts list, the posts are sorted in place and one item per post, newest first, is appended after the container's old children; otherwise nothing is appended and nothing is sorted |
| StaticPosts.StaticItem | static/posts.js:19-48 | the list item built for one post, without the date paragraph; `StaticItemDropsDate` states that it equals the other script's item with the date left out |
| StaticPosts.StaticItemDropsDate | static/posts.js:19-48 | a post's item is the item templates/scripts/posts.js builds for it with the date paragraph removed |
| StaticPosts.NoDateLine | static/posts.js:41-46 | no appended item holds a `post-date` element, even though one is built |
| StaticPosts.SortedManifestSameOrder | static/posts.js:17-50 | on a manifest that is already newest first, the two listing scripts show the same posts in the same order, item by item |
| StaticPosts.FetchPosts | static/posts.js:2-50 | with an ok response, a container and a posts list, one item per post is appended in manifest order; otherwise nothing is appended |
| Dropdown.DropdownLinks | static/scripts/dropdown.js:7-16 | one link per post, in manifest order, each a bare anchor whose text is its post's title and whose target is its post's path |
| Dropdown.DropdownLink | static/scripts/dropdown.js:8-14 | a bare anchor with no class whose text is the title and whose target is the path; `LinkMatchesListings` ties it to the listings' links |
| Dropdown.LinkMatchesListings | static/scripts/dropdown.js:8-14 | a dropdown link is the link of the post's item on either listing page without the `dropdown-link` class |
| Dropdown.LinksTellPathsApart | static/scripts/dropdown.js:8-14 | posts with different paths get different links |
| Dropdown.FetchPosts | static/scripts/dropdown.js:3-17 | with a posts list and a container, each post's link is appended after the old children, whatever the response status; otherwise nothing is appended |
| Dropdown.FetchTwice | static/scripts/dropdown.js:2-17 | `fetchPosts` never clears the container, so running it twice on the same container appends the whole list of links twice after what was there; a failed fetch appends nothing |
| Redirect.Message | templates/scripts/redirect.js:12-16 | the countdown text; `MessageShape`, `MessageTexts` and `MessageInjective` state its form, its concrete values and that different counts give different texts |
| Redirect.MessageShape | templates/scripts/redirect.js:12-16 | the countdown text always starts "Redirecting in " and ends with a full stop; the unit is plural exactly when the count is not one |
| Redirect.MessageTexts | templates/scripts/redirect.js:12-16 | the texts for 4, 3, 2 and 1 are "Redirecting in 4 seconds.", "... 3 seconds.", "... 2 seconds." and "Redirecting in 1 second." |
| Redirect.MessageInjective | templates/scripts/redirect.js:12-16 | different counts give different texts |
| Redirect.Update | templates/scripts/redirect.js:6-18 | an update takes one off the count |
| Redirect.UpdateRedirects | templates/scripts/redirect.js:6-10 | an update that takes the count to zero or below stops the interval, sends the browser to `/` and leaves the text unchanged |
| Redirect.UpdateWhilePositive | templates/scripts/redirect.js:6-16 | an update that leaves the count positive shows the message for the new count and leaves the interval and the location alone |
| Redirect.Tick | templates/scripts/redirect.js:3-10 | one firing of the one-second interval: an update while the interval runs, nothing once it is cleared; `CountsDown`, `Stopped` and `Timeline` state its effect |
| Redirect.CountsDown | templates/scripts/redirect.js:1-18 | while the count stays positive, each second takes one off it and shows it; the interval keeps running and no navigation happens |
| Redirect.Stopped | templates/scripts/redirect.js:8-10 | once the interval is cleared, nothing changes any more |
| Redirect.Timeline | templates/scripts/redirect.js:1-18 | the visitor reads 4, 3, 2 seconds and then "1 second."; the fifth update sends the browser to "/", stops the interval and leaves the text at "1 second." |
| Redirect.RedirectPage.constructor | templates/scripts/redirect.js:1-4 | loading the script starts at 5, schedules the interval and runs the first update at once |
| Redirect.RedirectPage.UpdateCountdown | templates/scripts/redirect.js:6-18 | the page's fields change as one update of the countdown |
| Redirect.RedirectPage.OnInterval | templates/scripts/redirect.js:3 | the timer runs an update only while the interval is scheduled |
| Copyright.CopyrightText | static/scripts/copyright.js:3 | the text starts "2024", and is exactly "2024" if and only if the current year is 2024; for any other year, earlier or later, it is "2024 - " followed by that year in decimal |
| Copyright.CopyrightInjective | static/scripts/copyright.js:3 | different years give different texts |
| Copyright.CopyrightExamples | static/scripts/copyright.js:2-3 | 2024 gives "2024"; 2025 gives "2024 - 2025"; 2023 gives "2024 - 2023" |

## Left out

- Dom.WebPost: a browser post always has a title, a path and a description. The scripts also accept a post that lacks them, which gives `alt="undefined"`, `href="undefined"` or an empty text (templates/scripts/posts.js:52-68, static/posts.js:26-38, static/scripts/dropdown.js:9-14). Such posts are outside the model, because the JavaScript conversion of a missing value to a string is not modelled.
- Reading and writing files, and JSON decoding, are not modelled. The posts file is given as present or missing. The metadata file is given as absent, unreadable, or its fields.
- ElementTree serialisation to XML text is not modelled.
- The error and warning messages printed to the console are not modelled.
- The command-line arguments and environment variables of tools/json2rss.py (lines 83-106) are not modelled.
- JSON values other than strings are not modelled. A manifest or metadata value that is a number, list or null is outside the model.
- A `posts` list holding a non-object is outside the model.
- The clock is a parameter: `GenerateRss` takes the UTC time that `datetime.now(timezone.utc)` would read.
- SHA-256 is a parameter. It is a function from the guid input text to its lower-case hex digest.
- DateFormats.ParseIsoDate: `%Y`, `%m` and `%d` accept ASCII digits only. Python's `\d` also matches other Unicode decimal digits, which the model does not capture.
- DateFormats.PubDate: years are printed four digits wide. This matches `%Y` for years 1000 to 9999. Platforms that print smaller years unpadded are not modelled.
- `fetch`, promises, `response.json()` and the DOM lookup are not modelled. The scripts' handlers receive their results: the response status as `ok`, the decoded `posts` list (absent when missing), and the container (null when missing).
- The browser's `Date` parsing and time zones are not modelled. A browser post's date is the calendar day it names (`Dom.Day`).
- PostsPage.FormatDate: gives the day as written. A browser west of UTC reads `YYYY-MM-DD` as UTC midnight but prints the local day, so it shows the day before. The model does not capture that shift.
- PostsPage.FetchPosts: dates that `new Date` cannot read (`NaN` in the comparator) are outside the model. Every browser post carries a valid day.
- PostsPage.SortNewestFirst: the JavaScript engine's sort algorithm is not modelled. Insertion sort stands in for it. Any stable sort has the same result, as `PostsPage.StableSortUnique` shows.
- StaticPosts.FetchPosts: the date paragraph that static/posts.js builds and never attaches is not modelled as a node.
- Dropdown.FetchPosts: with no container and a non-empty `posts`, the script throws on the first append. With an empty list it does nothing. Both leave the page unchanged, which is all the model states.
- Redirect: a page without the `#countdown` element (the script would throw on the first update) is not modelled.
- Redirect: the interval handle and `window.location` are reduced to a flag and the navigation target.
- RssFeed.AppendItems: the tree is modelled as values. ElementTree's in-place `SubElement` appends, and the aliasing between an item and the channel holding it, are not modelled. A date error discards the partly built tree, which the builder never writes.
