/** The not-found page's redirect script templates/scripts/redirect.js: a
    countdown from 5 that starts a one-second interval, runs its first
    update at once, shows "Redirecting in N seconds." while N is positive
    and, when N reaches zero, stops the interval and sends the browser to
    the site's root. */
module Redirect {
  import opened Wrappers
  import opened Decimal

  const Start := 5
  const Home := "/"
  const MessagePrefix := "Redirecting in "

  /** The unit after the count: plural except for exactly one. */
  function Unit(n: int): (u: string)
    ensures |u| > 1 && u[0] == ' ' && u[|u| - 1] == '.'
  {
    if n != 1 then " seconds." else " second."
  }

  /** The countdown text for `n` seconds left. */
  function Message(n: int): string {
    MessagePrefix + (IntToDecimal(n) + Unit(n))
  }

  /** Every countdown text reads "Redirecting in ", the count, and a unit
      ending in a full stop, plural exactly when the count is not one. */
  lemma MessageShape(n: int)
    ensures var m := Message(n);
      |m| > |MessagePrefix| + 2 && m[..|MessagePrefix|] == MessagePrefix
      && m[|m| - 1] == '.' && (m[|m| - 2] == 's' <==> n != 1)
  {
    var m, u := Message(n), Unit(n);
    assert m == (MessagePrefix + IntToDecimal(n)) + u;
    assert m[|m| - 2] == u[|u| - 2];
  }

  /** The texts the visitor reads. */
  lemma MessageTexts()
    ensures Message(4) == "Redirecting in 4 seconds."
    ensures Message(3) == "Redirecting in 3 seconds."
    ensures Message(2) == "Redirecting in 2 seconds."
    ensures Message(1) == "Redirecting in 1 second."
  {
    MessageText(4, "4", " seconds.");
    MessageText(3, "3", " seconds.");
    MessageText(2, "2", " seconds.");
    MessageText(1, "1", " second.");
  }

  lemma MessageText(n: nat, digit: string, unit: string)
    requires n < 10 && digit == [DigitChar(n)] && unit == Unit(n)
    ensures Message(n) == MessagePrefix + digit + unit
  {
  }

  /** The script's state: the counter, the `#countdown` element's text,
      whether the interval is still scheduled, and where the browser was
      sent, if anywhere. */
  datatype Page = Page(countdown: int, text: string, intervalActive: bool, location: Option<string>)

  /** `updateCountdown`. */
  function Update(s: Page): (r: Page)
    ensures r.countdown == s.countdown - 1
  {
    var c := s.countdown - 1;
    if c <= 0 then s.(countdown := c, intervalActive := false, location := Some(Home))
    else s.(countdown := c, text := Message(c))
  }

  /** One second passes: the interval fires only while it is scheduled. */
  function Tick(s: Page): Page {
    if s.intervalActive then Update(s) else s
  }

  /** The page right after the script has run: interval scheduled, first
      update done. */
  function Loaded(initialText: string): Page {
    Update(Page(Start, initialText, true, None))
  }

  /** The page after `k` seconds. */
  function After(s: Page, k: nat): Page {
    if k == 0 then s else Tick(After(s, k - 1))
  }

  /** Different counts give different messages. */
  lemma MessageInjective(m: int, n: int)
    requires Message(m) == Message(n)
    ensures m == n
  {
    SamePrefix(MessagePrefix, IntToDecimal(m) + Unit(m), IntToDecimal(n) + Unit(n));
    IntPrefixUnique(m, n, Unit(m), Unit(n));
  }

  /** While the count stays positive, each second takes one off the count
      and shows it, with the interval still running and no navigation. */
  lemma {:induction false} CountsDown(s: Page, k: nat)
    requires s.intervalActive && s.location.None?
    requires k < s.countdown
    ensures After(s, k).countdown == s.countdown - k
    ensures After(s, k).intervalActive && After(s, k).location.None?
    ensures k > 0 ==> After(s, k).text == Message(s.countdown - k)
  {
    if k > 0 {
      CountsDown(s, k - 1);
      var p := After(s, k - 1);
      UpdateWhilePositive(p);
    }
  }

  /** An update that leaves the count positive shows the new count and
      leaves the interval and the location alone. */
  lemma UpdateWhilePositive(p: Page)
    requires p.countdown > 1
    ensures Update(p).countdown == p.countdown - 1 && Update(p).text == Message(p.countdown - 1)
    ensures Update(p).intervalActive == p.intervalActive && Update(p).location == p.location
  {
  }

  /** An update that takes the count to zero or below stops the interval,
      sends the browser to the root and leaves the text as it was. */
  lemma UpdateRedirects(p: Page)
    requires p.countdown <= 1
    ensures Update(p).countdown == p.countdown - 1
    ensures !Update(p).intervalActive && Update(p).location == Some(Home)
    ensures Update(p).text == p.text
  {
  }

  /** Once the browser has been sent home nothing changes any more: the
      interval is gone and the text keeps its last message. */
  lemma {:induction false} Stopped(s: Page, k: nat)
    requires !s.intervalActive
    ensures After(s, k) == s
  {
    if k > 0 {
      Stopped(s, k - 1);
    }
  }

  /** The visitor reads 4, 3, 2 and then "1 second.", one a second; the
      fifth update sends the browser to the root and leaves that last
      message in place. */
  lemma Timeline(initialText: string)
    ensures Loaded(initialText).text == "Redirecting in 4 seconds."
    ensures After(Loaded(initialText), 1).text == "Redirecting in 3 seconds."
    ensures After(Loaded(initialText), 2).text == "Redirecting in 2 seconds."
    ensures After(Loaded(initialText), 3).text == "Redirecting in 1 second."
    ensures forall k :: 0 <= k < 4 ==> After(Loaded(initialText), k).location.None?
    ensures After(Loaded(initialText), 4).location == Some(Home)
    ensures After(Loaded(initialText), 4).text == "Redirecting in 1 second."
    ensures !After(Loaded(initialText), 4).intervalActive
  {
    var s := Loaded(initialText);
    MessageTexts();
    forall k | 0 <= k < 4 ensures After(s, k).location.None? {
      CountsDown(s, k);
    }
    CountsDown(s, 3);
  }

  /** The live page, with the interval handle and the element reduced to
      the fields the script changes. */
  class RedirectPage {
    var countdown: int
    var text: string
    var intervalActive: bool
    var location: Option<string>

    function State(): Page
      reads this
    {
      Page(countdown, text, intervalActive, location)
    }

    /** Loading the script: the counter starts at 5, the interval is
        scheduled, and the first update runs straight away. */
    constructor (initialText: string)
      ensures State() == Loaded(initialText)
    {
      countdown := Start;
      text := initialText;
      intervalActive := true;
      location := None;
      new;
      UpdateCountdown();
    }

    method UpdateCountdown()
      modifies this
      ensures State() == Update(old(State()))
    {
      countdown := countdown - 1;
      if countdown <= 0 {
        intervalActive := false;
        location := Some(Home);
      } else {
        text := Message(countdown);
      }
    }

    /** The interval's callback. */
    method OnInterval()
      modifies this
      ensures State() == Tick(old(State()))
    {
      if intervalActive {
        UpdateCountdown();
      }
    }
  }
}
