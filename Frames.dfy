/** The Farcaster frame embed: its shape, the quote escaping applied to its
    serialised form before it is written out, and the site-wide embed. */
module Frames {
  import opened Common

  /** What the button launches. The declared type fixes `actionType` to
      "launch_frame"; an absent `splashImageUrl` is `None`. */
  datatype LaunchAction = LaunchAction(actionType: string, name: string, url: string,
                                       splashImageUrl: Option<string>, splashBackgroundColor: string)

  datatype FrameButton = FrameButton(title: string, action: LaunchAction)

  /** An embed. The declared type fixes `version` to "next" and asks for both
      image URLs to be strings; an absent `imageUrl` is `None`. */
  datatype FrameEmbed = FrameEmbed(version: string, imageUrl: Option<string>, button: FrameButton)

  const FrameVersion: string := "next"
  const LaunchFrame: string := "launch_frame"

  /** The embed has the declared `FrameEmbed` type: both literal-typed
      fields carry their one allowed value and both image URLs are present. */
  predicate WellTyped(e: FrameEmbed) {
    e.version == FrameVersion && e.button.action.actionType == LaunchFrame &&
    e.imageUrl.Some? && e.button.action.splashImageUrl.Some?
  }

  const QuoteEntity: string := "&quot;"

  /** How many `"` characters `s` holds. */
  function QuoteCount(s: string): nat {
    if s == [] then 0 else (if s[0] == '"' then 1 else 0) + QuoteCount(s[1..])
  }

  /** `s.replace(/"/g, "&quot;")`: every double quote becomes the entity,
      every other character is kept, in order. */
  function EscapeQuotes(s: string): (r: string)
    ensures '"' !in r
    ensures |r| == |s| + 5 * QuoteCount(s)
    ensures '"' !in s ==> r == s
  {
    if s == [] then []
    else (if s[0] == '"' then QuoteEntity else [s[0]]) + EscapeQuotes(s[1..])
  }

  /** Escaping works character by character: it distributes over concatenation. */
  lemma {:induction false} EscapeAppend(a: string, b: string)
    ensures EscapeQuotes(a + b) == EscapeQuotes(a) + EscapeQuotes(b)
    decreases |a|
  {
    if a == [] {
      assert a + b == b;
    } else {
      var ab := a + b;
      assert ab[0] == a[0] && ab[1..] == a[1..] + b;
      var head := if a[0] == '"' then QuoteEntity else [a[0]];
      var x, y := EscapeQuotes(a[1..]), EscapeQuotes(b);
      EscapeAppend(a[1..], b);
      calc {
        EscapeQuotes(ab);
        head + EscapeQuotes(a[1..] + b);
        head + (x + y);
        { assert head + (x + y) == (head + x) + y; }
        (head + x) + y;
        EscapeQuotes(a) + y;
      }
    }
  }

  /** Decodes the entity back to a quote, reading left to right. */
  function UnescapeQuotes(t: string): string {
    if t == [] then []
    else if |t| >= 6 && t[..6] == QuoteEntity then "\"" + UnescapeQuotes(t[6..])
    else [t[0]] + UnescapeQuotes(t[1..])
  }

  /** `s` holds the entity text itself somewhere. */
  predicate HasEntity(s: string) {
    s != [] && ((|s| >= 6 && s[..6] == QuoteEntity) || HasEntity(s[1..]))
  }

  /** When escaped text starts with a piece free of `&` and `"`, the text
      before escaping starts with that same piece. */
  lemma {:induction false} EscapedPrefix(u: string, w: string)
    requires '&' !in w && '"' !in w
    requires |w| <= |EscapeQuotes(u)| && EscapeQuotes(u)[..|w|] == w
    ensures |w| <= |u| && u[..|w|] == w
    decreases |w|
  {
    if w != [] {
      var e := EscapeQuotes(u);
      assert u != [];
      assert e[0] == w[0];
      assert u[0] != '"';
      assert e == [u[0]] + EscapeQuotes(u[1..]);
      assert EscapeQuotes(u[1..])[..|w| - 1] == w[1..];
      EscapedPrefix(u[1..], w[1..]);
      assert u == [u[0]] + u[1..];
    }
  }

  /** Decoding the escaped text gives the text back, provided the text never
      contained the entity itself. */
  lemma {:induction false} UnescapeEscape(s: string)
    requires !HasEntity(s)
    ensures UnescapeQuotes(EscapeQuotes(s)) == s
    decreases |s|
  {
    if s != [] {
      var rest := EscapeQuotes(s[1..]);
      UnescapeEscape(s[1..]);
      if s[0] == '"' {
        var e := QuoteEntity + rest;
        assert e[..6] == QuoteEntity && e[6..] == rest;
      } else {
        var e := [s[0]] + rest;
        assert e[1..] == rest;
        if |e| >= 6 && e[..6] == QuoteEntity {
          assert s[0] == e[0] == e[..6][0] == '&';
          assert rest[..5] == "quot;" by { assert e[1..6] == rest[..5]; }
          EscapedPrefix(s[1..], "quot;");
          assert false;
        }
      }
    }
  }

  /** Without that proviso the round trip fails: a quote and the entity
      text escape to the same string. */
  lemma EscapeNotInjective()
    ensures EscapeQuotes("\"") == EscapeQuotes(QuoteEntity)
    ensures UnescapeQuotes(EscapeQuotes(QuoteEntity)) == "\""
  {
    assert EscapeQuotes("\"") == QuoteEntity by { assert "\""[1..] == []; }
    assert UnescapeQuotes(QuoteEntity) == "\"" by { assert QuoteEntity[..6] == QuoteEntity && QuoteEntity[6..] == []; }
  }

  /** What `writeMetadata` writes: the escaped text on the log, or the error
      on the error log. */
  datatype LogLine = Logged(text: string) | ErrorLogged(thrown: Thrown)

  /** `writeMetadata` given the outcome of `JSON.stringify` on the embed: a
      serialisation failure is caught and logged, never propagated. */
  function WriteMetadata(serialised: Outcome<string>): (line: LogLine)
    ensures serialised.Ok? <==> line.Logged?
    ensures line.Logged? ==> line.text == EscapeQuotes(serialised.value)
    ensures line.Logged? ==> '"' !in line.text && |line.text| == |serialised.value| + 5 * QuoteCount(serialised.value)
    ensures line.ErrorLogged? ==> line.thrown == serialised.thrown
  {
    match serialised
    case Ok(json) => Logged(EscapeQuotes(json))
    case Err(t) => ErrorLogged(t)
  }

  /** The site-wide embed: a "Shop Now" button launching the storefront. */
  const SiteFrame: FrameEmbed := FrameEmbed(
    "next",
    Some("https://github.com/jpfraneto/images/blob/main/farbarter.png?raw=true"),
    FrameButton("Shop Now", LaunchAction("launch_frame", "Farbarter", "https://farbarter.com",
                                         Some("https://farbarter.com/splash.jpeg"), "#4D8C97")))

  /** The site-wide embed has the declared type. */
  lemma SiteFrameWellTyped()
    ensures WellTyped(SiteFrame)
  {
  }
}
