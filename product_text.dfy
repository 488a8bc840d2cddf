/**
  The text and the filename of a product's download, shared by the product
  page and the product dialog: the name, a blank line, the features numbered
  from 1, a blank line and a contact footer; the filename is the name with
  each whitespace run replaced by one separator character.
*/
module ProductText {
  import opened Strings

  /** `${i + 1}. ${f}` for the feature at position `i`. */
  function NumberedLine(i: nat, f: string): string {
    NatToString(i + 1) + ". " + f
  }

  /** `features.map((f, i) => `${i + 1}. ${f}`)`. */
  // The ensures clauses below only expose the body to the proofs; the meaning is stated by `NumberedLineRead` and `DownloadTextLines`.
  function NumberedLines(features: seq<string>): (r: seq<string>)
    ensures |r| == |features|
    ensures forall i | 0 <= i < |features| :: r[i] == NumberedLine(i, features[i])
  {
    seq(|features|, i requires 0 <= i < |features| => NumberedLine(i, features[i]))
  }

  /** Line `i` of the numbered list reads back as the number `i + 1` up to its
      first dot, followed by a dot, a space and the feature itself. */
  lemma NumberedLineRead(features: seq<string>, i: nat)
    requires i < |features|
    ensures BeforeFirst(NumberedLines(features)[i], '.') == NatToString(i + 1)
    ensures ParseDigits(NatToString(i + 1)) == i + 1
    ensures NumberedLines(features)[i] == NatToString(i + 1) + ". " + features[i]
  {
    var d := NatToString(i + 1);
    assert NumberedLines(features)[i] == d + ['.'] + (" " + features[i]);
    assert '.' !in d by {
      forall k | 0 <= k < |d| ensures d[k] != '.' {
        assert IsDigit(d[k]);
      }
    }
    SplitAt(d, '.', " " + features[i]);
    NatToStringRoundTrip(i + 1);
  }

  /** The downloaded text. */
  function DownloadText(name: string, features: seq<string>, footer: string): string {
    name + "\n\n" + Join("\n", NumberedLines(features)) + "\n\n" + footer
  }

  /** Splitting a joined list followed by more text. */
  lemma {:induction false} SplitJoinThen(xs: seq<string>, c: char, rest: string)
    requires |xs| >= 1
    requires forall i | 0 <= i < |xs| :: c !in xs[i]
    ensures Split(Join([c], xs) + [c] + rest, c) == xs + Split(rest, c)
  {
    if |xs| == 1 {
      SplitAt(xs[0], c, rest);
    } else {
      var tail := Join([c], xs[1..]);
      var more := tail + [c] + rest;
      assert Join([c], xs) == xs[0] + [c] + tail;
      assert Join([c], xs) + [c] + rest == xs[0] + [c] + more;
      SplitAt(xs[0], c, more);
      SplitJoinThen(xs[1..], c, rest);
      assert [xs[0]] + xs[1..] == xs;
    }
  }

  lemma NumberedLineNoBreak(i: nat, f: string)
    requires '\n' !in f
    ensures '\n' !in NumberedLine(i, f)
  {
    var d := NatToString(i + 1);
    assert '\n' !in d by {
      forall k | 0 <= k < |d| ensures d[k] != '\n' {
        assert IsDigit(d[k]);
      }
    }
  }

  /** Read line by line, the text is the name, a blank line, one numbered line
      per feature in order, a blank line, then the footer's lines. */
  lemma {:induction false} DownloadTextLines(name: string, features: seq<string>, footer: string)
    requires |features| >= 1
    requires '\n' !in name
    requires forall i | 0 <= i < |features| :: '\n' !in features[i]
    ensures Split(DownloadText(name, features, footer), '\n')
      == [name, ""] + NumberedLines(features) + [""] + Split(footer, '\n')
  {
    var lines := NumberedLines(features);
    var body := Join("\n", lines);
    forall i | 0 <= i < |lines| ensures '\n' !in lines[i] {
      NumberedLineNoBreak(i, features[i]);
    }
    assert DownloadText(name, features, footer) == name + ['\n'] + ([] + ['\n'] + (body + ['\n'] + ("\n" + footer)));
    SplitAt(name, '\n', [] + ['\n'] + (body + ['\n'] + ("\n" + footer)));
    SplitAt([], '\n', body + ['\n'] + ("\n" + footer));
    SplitJoinThen(lines, '\n', "\n" + footer);
    assert "\n" + footer == [] + ['\n'] + footer;
    SplitAt([], '\n', footer);
  }

  /** Two downloads of the same product differ only in their footers. */
  lemma SameBodyDifferentFooter(name: string, features: seq<string>, f1: string, f2: string)
    ensures var k := |name + "\n\n" + Join("\n", NumberedLines(features)) + "\n\n"|;
      && DownloadText(name, features, f1)[..k] == DownloadText(name, features, f2)[..k]
      && DownloadText(name, features, f1)[k..] == f1
      && DownloadText(name, features, f2)[k..] == f2
  {
  }

  // ----- the filename slug ---------------------------------------------------------

  /** `s.replace(/\s+/g, sep)`: every maximal run of whitespace becomes one
      `sep`. */
  function Slug(s: string, sep: char): string
    decreases |s|
  {
    if s == [] then []
    else if IsWhitespace(s[0]) then
      var rest := TrimStart(s);
      assert |rest| < |s| by {
        assert rest == TrimStart(s[1..]);
      }
      [sep] + Slug(rest, sep)
    else [s[0]] + Slug(s[1..], sep)
  }

  /** The slug of a non-whitespace separator has no whitespace. */
  lemma {:induction false} SlugNoWhitespace(s: string, sep: char)
    requires !IsWhitespace(sep)
    ensures NoWhitespace(Slug(s, sep))
    decreases |s|
  {
    if s != [] {
      if IsWhitespace(s[0]) {
        var rest := TrimStart(s);
        assert rest == TrimStart(s[1..]);
        SlugNoWhitespace(rest, sep);
      } else {
        SlugNoWhitespace(s[1..], sep);
      }
    }
  }

  /** Text without whitespace is its own slug. */
  lemma {:induction false} SlugIdentity(s: string, sep: char)
    requires NoWhitespace(s)
    ensures Slug(s, sep) == s
  {
    if s != [] {
      assert !IsWhitespace(s[0]);
      SlugIdentity(s[1..], sep);
      assert [s[0]] + s[1..] == s;
    }
  }

  /** Making a slug twice changes nothing more. */
  lemma SlugIdempotent(s: string, sep: char)
    requires !IsWhitespace(sep)
    ensures Slug(Slug(s, sep), sep) == Slug(s, sep)
  {
    SlugNoWhitespace(s, sep);
    SlugIdentity(Slug(s, sep), sep);
  }

  /** A whitespace run between a whitespace-free stretch and text starting
      with non-whitespace becomes exactly one separator. */
  lemma {:induction false} SlugRun(a: string, w: string, b: string, sep: char)
    requires NoWhitespace(a)
    requires w != [] && AllWhitespace(w)
    requires b == [] || !IsWhitespace(b[0])
    ensures Slug(a + w + b, sep) == a + [sep] + Slug(b, sep)
  {
    if a == [] {
      var s := w + b;
      assert a + w + b == s;
      assert IsWhitespace(s[0]);
      WhitespaceRunTrimmed(w, b);
    } else {
      assert (a + w + b)[0] == a[0];
      assert (a + w + b)[1..] == a[1..] + w + b;
      SlugRun(a[1..], w, b, sep);
      assert [a[0]] + a[1..] == a;
    }
  }

  lemma {:induction false} WhitespaceRunTrimmed(w: string, b: string)
    requires AllWhitespace(w)
    requires b == [] || !IsWhitespace(b[0])
    ensures TrimStart(w + b) == b
  {
    if w == [] {
      assert w + b == b;
    } else {
      assert (w + b)[0] == w[0];
      assert (w + b)[1..] == w[1..] + b;
      WhitespaceRunTrimmed(w[1..], b);
    }
  }

  /** The downloaded file's name. */
  function DownloadFilename(name: string, sep: char): string {
    Slug(name, sep) + ".txt"
  }
}
