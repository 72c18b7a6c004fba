/**
 * What the RLE reader promises: the effect of each header line, of each body tag with and
 * without a count, the end marker, invalid characters, and the per-line life of run counts.
 */
module FileReaderProperties {
  import opened Wrappers
  import opened Text
  import opened FileReader

  // ---------------------------------------------------------------- body characters

  /** Digits only extend the pending count. */
  lemma {:induction false} DigitsAccumulate(d: string, rest: string, pending: string, st: Scan)
    requires AllDigits(d)
    ensures BodyChars(d + rest, pending, st) == BodyChars(rest, pending + d, st)
    decreases |d|
  {
    if d == [] {
      assert d + rest == rest && pending + d == pending;
    } else {
      assert (d + rest)[0] == d[0] && (d + rest)[1..] == d[1..] + rest;
      DigitsAccumulate(d[1..], rest, pending + [d[0]], st);
      assert pending + [d[0]] + d[1..] == pending + d;
    }
  }

  /** A tag after the numeral of `n` acts with count `n`. */
  lemma CountedTag(tag: char, n: nat, rest: string, st: Scan)
    requires IsTag(tag) && n <= USIZE_MAX
    ensures BodyChars(Decimal(n) + [tag] + rest, [], st) == BodyChars(rest, [], Apply(tag, n, st))
  {
    var d := Decimal(n);
    assert d + [tag] + rest == d + ([tag] + rest);
    DigitsAccumulate(d, [tag] + rest, [], st);
    assert [] + d == d;
    ParseDecimal(n);
    assert RunCount(d) == Some(n);
    TagStep(tag, rest, d, st);
  }

  /** One tag, read with the pending digits. */
  lemma TagStep(tag: char, rest: string, pending: string, st: Scan)
    requires IsTag(tag)
    ensures BodyChars([tag] + rest, pending, st)
         == match RunCount(pending)
            case None => Panicked
            case Some(n) => BodyChars(rest, [], Apply(tag, n, st))
  {
    assert ([tag] + rest)[0] == tag && ([tag] + rest)[1..] == rest;
  }

  /** A tag with a count, and the same tag without one, which counts as one, given where each leaves the cursor. */
  lemma TagForms(tag: char, n: nat, rest: string, st: Scan, counted: Scan, single: Scan)
    requires IsTag(tag) && n <= USIZE_MAX
    requires Apply(tag, n, st) == counted && Apply(tag, 1, st) == single
    ensures BodyChars(Decimal(n) + [tag] + rest, [], st) == BodyChars(rest, [], counted)
    ensures BodyChars([tag] + rest, [], st) == BodyChars(rest, [], single)
  {
    CountedTag(tag, n, rest, st);
    TagStep(tag, rest, [], st);
  }

  /** `o` with count N appends the cells (col + k, row) for k < N and moves N columns on; no count means one. */
  lemma LiveRun(n: nat, rest: string, st: Scan)
    requires n <= USIZE_MAX
    ensures BodyChars(Decimal(n) + "o" + rest, [], st)
         == BodyChars(rest, [], st.(p := st.p.(pattern := st.p.pattern + Run(st.col, st.row, n)), col := st.col + n))
    ensures BodyChars("o" + rest, [], st)
         == BodyChars(rest, [], st.(p := st.p.(pattern := st.p.pattern + [(st.col, st.row)]), col := st.col + 1))
  {
    assert Run(st.col, st.row, 1) == [(st.col, st.row)];
    TagForms('o', n, rest, st,
      st.(p := st.p.(pattern := st.p.pattern + Run(st.col, st.row, n)), col := st.col + n),
      st.(p := st.p.(pattern := st.p.pattern + [(st.col, st.row)]), col := st.col + 1));
  }

  /** `b` with count N moves N columns on and appends nothing; no count means one. */
  lemma DeadRun(n: nat, rest: string, st: Scan)
    requires n <= USIZE_MAX
    ensures BodyChars(Decimal(n) + "b" + rest, [], st) == BodyChars(rest, [], st.(col := st.col + n))
    ensures BodyChars("b" + rest, [], st) == BodyChars(rest, [], st.(col := st.col + 1))
  {
    TagForms('b', n, rest, st, st.(col := st.col + n), st.(col := st.col + 1));
  }

  /** `$` with count N moves N rows down and back to column zero; no count means one. */
  lemma RowRun(n: nat, rest: string, st: Scan)
    requires n <= USIZE_MAX
    ensures BodyChars(Decimal(n) + "$" + rest, [], st) == BodyChars(rest, [], st.(row := st.row + n, col := 0))
    ensures BodyChars("$" + rest, [], st) == BodyChars(rest, [], st.(row := st.row + 1, col := 0))
  {
    TagForms('$', n, rest, st, st.(row := st.row + n, col := 0), st.(row := st.row + 1, col := 0));
  }

  /** A count beyond `usize` in front of a tag makes the reader panic. */
  lemma CountOverflow(tag: char, n: nat, rest: string, st: Scan)
    requires IsTag(tag) && n > USIZE_MAX
    ensures BodyChars(Decimal(n) + [tag] + rest, [], st) == Panicked
  {
    var d := Decimal(n);
    assert d + [tag] + rest == d + ([tag] + rest);
    DigitsAccumulate(d, [tag] + rest, [], st);
    assert [] + d == d;
    ParseOverflow(n);
    TagStep(tag, rest, d, st);
  }

  /** A character that is neither a digit, a tag nor `!` rejects the pattern. */
  lemma InvalidChar(c: char, rest: string, pending: string, st: Scan)
    requires !IsDigit(c) && !IsTag(c) && c != '!'
    ensures BodyChars([c] + rest, pending, st) == Returned(Reject)
  {
  }

  /** Whatever follows `!` is never looked at. */
  lemma {:induction false} StopIgnoresRest(s: string, rest: string, pending: string, st: Scan)
    ensures BodyChars(s + "!" + rest, pending, st) == BodyChars(s + "!", pending, st)
    decreases |s|
  {
    if s == [] {
      assert s + "!" + rest == "!" + rest && s + "!" == "!";
      assert ("!" + rest)[0] == '!';
      assert "!"[0] == '!';
    } else {
      assert (s + "!" + rest)[0] == s[0] && (s + "!" + rest)[1..] == s[1..] + "!" + rest;
      assert (s + "!")[0] == s[0] && (s + "!")[1..] == s[1..] + "!";
      var n := RunCount(pending);
      if IsDigit(s[0]) {
        StopIgnoresRest(s[1..], rest, pending + [s[0]], st);
      } else if IsTag(s[0]) && n.Some? {
        StopIgnoresRest(s[1..], rest, [], Apply(s[0], n.value, st));
      }
    }
  }

  /** Digits at the end of a line count for nothing: a count never reaches the next line. */
  lemma {:induction false} TrailingDigitsIgnored(s: string, d: string, pending: string, st: Scan)
    requires AllDigits(d)
    ensures BodyChars(s + d, pending, st) == BodyChars(s, pending, st)
    decreases |s|
  {
    if s == [] {
      DigitsAccumulate(d, [], pending, st);
      assert d + [] == d && s + d == d;
    } else {
      assert (s + d)[0] == s[0] && (s + d)[1..] == s[1..] + d;
      var n := RunCount(pending);
      if IsDigit(s[0]) {
        TrailingDigitsIgnored(s[1..], d, pending + [s[0]], st);
      } else if IsTag(s[0]) && n.Some? {
        TrailingDigitsIgnored(s[1..], d, [], Apply(s[0], n.value, st));
      }
    }
  }

  /** A run of characters that ends on a tag hands its cursor, and no pending digits, to what follows. */
  lemma {:induction false} BodyAppend(s: string, t: string, pending: string, st: Scan, next: Scan)
    requires s != [] && IsTag(s[|s| - 1])
    requires BodyChars(s, pending, st) == Returned(Go(next))
    ensures BodyChars(s + t, pending, st) == BodyChars(t, [], next)
    decreases |s|
  {
    assert (s + t)[0] == s[0] && (s + t)[1..] == s[1..] + t;
    var n := RunCount(pending);
    if IsDigit(s[0]) {
      BodyAppend(s[1..], t, pending + [s[0]], st, next);
    } else if |s| > 1 {
      BodyAppend(s[1..], t, [], Apply(s[0], n.value, st), next);
    }
  }

  // ---------------------------------------------------------------- whole lines

  /** A header line `#N..` names the pattern with the text after the tag. */
  lemma HeaderName(st: Scan, line: string, t: string)
    requires !st.headerFinished && Trim(line) == "#N" + t
    ensures LineStep(st, line) == Returned(Go(st.(p := st.p.(name := t))))
  {
    assert Trim(line)[..2] == "#N" && Trim(line)[2..] == t;
  }

  /** A header line `#O..` gives the author as the text after the tag. */
  lemma HeaderAuthor(st: Scan, line: string, t: string)
    requires !st.headerFinished && Trim(line) == "#O" + t
    ensures LineStep(st, line) == Returned(Go(st.(p := st.p.(author := t))))
  {
    assert Trim(line)[..2] == "#O" && Trim(line)[2..] == t;
  }

  /** Any other header line is skipped (unless it starts with a two-byte character, see below). */
  lemma HeaderSkipped(st: Scan, line: string)
    requires !st.headerFinished
    requires |Trim(line)| < 2 || (Trim(line)[0] != 'x' && Trim(line)[..2] != "#N" && Trim(line)[..2] != "#O")
    requires Trim(line) == [] || Utf8Len(Trim(line)[0]) != 2
    ensures LineStep(st, line) == Returned(Go(st))
  {
  }

  /** A header line whose first character takes two bytes in UTF-8 makes the reader panic. */
  lemma HeaderTwoByteLead(st: Scan, line: string)
    requires !st.headerFinished && Trim(line) != [] && Utf8Len(Trim(line)[0]) == 2
    ensures LineStep(st, line) == Panicked
  {
  }

  /** The first character of a string that does not start with whitespace survives whitespace removal. */
  lemma RemoveWhitespaceHead(s: string)
    requires s != [] && s[0] !in Whitespace
    ensures RemoveWhitespace(s) != [] && RemoveWhitespace(s)[0] == s[0]
  {
  }

  /** Splitting `a + [sep] + b` at its first `sep` gives `a` and then `b` when `a` holds no `sep`. */
  lemma {:induction false} SplitAt(a: string, b: string, sep: char)
    requires sep !in a
    ensures FirstPiece(a + [sep] + b, sep) == a
    ensures AfterFirst(a + [sep] + b, sep) == Some(b)
    decreases |a|
  {
    var s := a + [sep] + b;
    if a == [] {
      assert s[0] == sep;
    } else {
      assert s[0] == a[0] && s[1..] == a[1..] + [sep] + b;
      SplitAt(a[1..], b, sep);
    }
    assert s[|a| + 1..] == b;
  }

  /** The whole of a string without `sep` is its first piece. */
  lemma {:induction false} NoSplit(a: string, sep: char)
    requires sep !in a
    ensures FirstPiece(a, sep) == a
    decreases |a|
  {
    if a != [] {
      assert a[0] != sep;
      NoSplit(a[1..], sep);
    }
  }

  /** Stripping a prefix made only of dropped characters, up to one that is kept. */
  lemma {:induction false} StripStartPrefix(pre: string, d: string, drop: set<char>)
    requires forall i | 0 <= i < |pre| :: pre[i] in drop
    requires d == [] || d[0] !in drop
    ensures StripStart(pre + d, drop) == d
    decreases |pre|
  {
    if pre == [] {
      assert pre + d == d;
    } else {
      assert (pre + d)[0] == pre[0] && (pre + d)[1..] == pre[1..] + d;
      StripStartPrefix(pre[1..], d, drop);
    }
  }

  /** Stripping `x`/`y` and `=` off `"x=" + numeral` leaves the numeral. */
  lemma StripTag(tag: char, n: nat)
    requires tag == 'x' || tag == 'y'
    ensures Strip([tag, '='] + Decimal(n), {tag, '='}) == Decimal(n)
  {
    var d := Decimal(n);
    StripStartPrefix([tag, '='], d, {tag, '='});
    assert d[|d| - 1] !in {tag, '='};
  }

  /** The second field of a size line, followed by nothing or by further fields. */
  lemma SecondField(ys: string, tail: string)
    requires ',' !in ys
    requires tail == [] || tail[0] == ','
    ensures FirstPiece(ys + tail, ',') == ys
  {
    if tail == [] {
      assert ys + tail == ys;
      NoSplit(ys, ',');
    } else {
      assert ys + tail == ys + [','] + tail[1..];
      SplitAt(ys, tail[1..], ',');
    }
  }

  /** A size line whose two fields hold `x=W` and `y=H`. */
  lemma SizeLineOf(st: Scan, xs: string, ys: string, more: string, w: nat, h: nat)
    requires ',' !in xs && FirstPiece(ys + more, ',') == ys
    requires ParseUsize(Strip(xs, {'x', '='})) == Some(w) && ParseUsize(Strip(ys, {'y', '='})) == Some(h)
    ensures SizeLine(st, xs + [','] + (ys + more))
         == Returned(st.(p := st.p.(width := w, height := h), headerFinished := true))
  {
    SplitAt(xs, ys + more, ',');
  }

  /** `x=` or `y=` in front of a numeral holds no comma. */
  lemma FieldNoComma(tag: char, n: nat)
    requires tag != ','
    ensures ',' !in [tag, '='] + Decimal(n)
  {
    var f := [tag, '='] + Decimal(n);
    assert forall i | 2 <= i < |f| :: f[i] == Decimal(n)[i - 2];
  }

  /** `x=W,y=H` followed by `tail`, cut at its first comma. */
  lemma SizeLineShape(w: nat, h: nat, tail: string)
    ensures "x=" + Decimal(w) + ",y=" + Decimal(h) + tail
         == (['x', '='] + Decimal(w)) + [','] + ((['y', '='] + Decimal(h)) + tail)
  {
  }

  /** The two fields `x=W` and `y=H`, with commas between them and after them. */
  lemma SizeFieldsSplit(st: Scan, w: nat, h: nat, tail: string)
    requires w <= USIZE_MAX && h <= USIZE_MAX
    requires tail == [] || tail[0] == ','
    ensures SizeLine(st, (['x', '='] + Decimal(w)) + [','] + ((['y', '='] + Decimal(h)) + tail))
         == Returned(st.(p := st.p.(width := w, height := h), headerFinished := true))
  {
    var xs := ['x', '='] + Decimal(w);
    var ys := ['y', '='] + Decimal(h);
    FieldNoComma('x', w);
    FieldNoComma('y', h);
    SecondField(ys, tail);
    StripTag('x', w);
    StripTag('y', h);
    ParseDecimal(w);
    ParseDecimal(h);
    SizeLineOf(st, xs, ys, tail, w, h);
  }

  /** The fields of a size line with whitespace removed: `x=W,y=H` and possibly more fields. */
  lemma SizeFields(st: Scan, w: nat, h: nat, tail: string)
    requires w <= USIZE_MAX && h <= USIZE_MAX
    requires tail == [] || tail[0] == ','
    ensures SizeLine(st, "x=" + Decimal(w) + ",y=" + Decimal(h) + tail)
         == Returned(st.(p := st.p.(width := w, height := h), headerFinished := true))
  {
    SizeFieldsSplit(st, w, h, tail);
    SizeLineShape(w, h, tail);
  }

  /** A trimmed line does not start with whitespace. */
  lemma TrimHead(line: string)
    requires Trim(line) != []
    ensures Trim(line)[0] !in Whitespace
  {
    var a := StripStart(line, Whitespace);
    assert Trim(line)[0] == a[0];
  }

  /** The size line `x = W, y = H[, ...]` sets width and height and ends the header. */
  lemma SizeLineRead(st: Scan, line: string, w: nat, h: nat, tail: string)
    requires !st.headerFinished && w <= USIZE_MAX && h <= USIZE_MAX
    requires |Trim(line)| >= 2 && Utf8Len(Trim(line)[1]) == 1
    requires RemoveWhitespace(Trim(line)) == "x=" + Decimal(w) + ",y=" + Decimal(h) + tail
    requires tail == [] || tail[0] == ','
    ensures LineStep(st, line) == Returned(Go(st.(p := st.p.(width := w, height := h), headerFinished := true)))
  {
    var l := Trim(line);
    TrimHead(line);
    RemoveWhitespaceHead(l);
    assert l[0] == 'x';
    assert l[..2] != "#O" && l[..2] != "#N";
    assert HeaderLine(st, l) == SizeLine(st, RemoveWhitespace(l));
    SizeFields(st, w, h, tail);
  }

  /** Removing whitespace from fragments removes it from their concatenation. */
  lemma {:induction false} RemoveWhitespaceConcat(a: string, b: string)
    ensures RemoveWhitespace(a + b) == RemoveWhitespace(a) + RemoveWhitespace(b)
    decreases |a|
  {
    if a == [] {
      assert a + b == b;
    } else {
      assert (a + b)[0] == a[0] && (a + b)[1..] == a[1..] + b;
      RemoveWhitespaceConcat(a[1..], b);
    }
  }

  /** Leading whitespace is removed either way. */
  lemma {:induction false} RemoveWhitespaceStripStart(s: string)
    ensures RemoveWhitespace(StripStart(s, Whitespace)) == RemoveWhitespace(s)
    decreases |s|
  {
    if s != [] && s[0] in Whitespace {
      RemoveWhitespaceStripStart(s[1..]);
    }
  }

  /** Trailing whitespace is removed either way. */
  lemma {:induction false} RemoveWhitespaceStripEnd(s: string)
    ensures RemoveWhitespace(StripEnd(s, Whitespace)) == RemoveWhitespace(s)
    decreases |s|
  {
    if s != [] && s[|s| - 1] in Whitespace {
      var a := s[..|s| - 1];
      RemoveWhitespaceStripEnd(a);
      assert s == a + [s[|s| - 1]];
      RemoveWhitespaceConcat(a, [s[|s| - 1]]);
      assert RemoveWhitespace([s[|s| - 1]]) == [];
    }
  }

  /** Trimming only drops whitespace, so it does not change what whitespace removal leaves. */
  lemma RemoveWhitespaceTrim(s: string)
    ensures RemoveWhitespace(Trim(s)) == RemoveWhitespace(s)
  {
    RemoveWhitespaceStripStart(s);
    RemoveWhitespaceStripEnd(StripStart(s, Whitespace));
  }

  /** A body line reads the same as the line with all of its whitespace removed. */
  lemma BodyWhitespaceIgnored(st: Scan, line: string)
    requires st.headerFinished
    ensures LineStep(st, line) == LineStep(st, RemoveWhitespace(line))
  {
    var s := RemoveWhitespace(line);
    RemoveWhitespaceTrim(line);
    RemoveWhitespaceTrim(s);
    assert RemoveWhitespace(s) == s;
  }

  /** A body line ending in digits ends in the same state as without them. */
  lemma CountsDoNotSpanLines(st: Scan, line: string, s: string, d: string)
    requires st.headerFinished && AllDigits(d)
    requires RemoveWhitespace(Trim(line)) == s + d
    ensures LineStep(st, line) == BodyChars(s, [], st)
  {
    TrailingDigitsIgnored(s, d, [], st);
  }

  /** Once a body line reaches `!`, the pattern read so far is the result, whatever lines follow. */
  lemma StopLine(st: Scan, line: string, s: string, rest: string, last: Scan, more: seq<string>)
    requires st.headerFinished
    requires RemoveWhitespace(Trim(line)) == s + "!" + rest
    requires s == [] || IsTag(s[|s| - 1])
    requires BodyChars(s, [], st) == Returned(Go(last))
    ensures ScanLines(st, [line] + more) == Returned(Some(last.p))
  {
    StopIgnoresRest(s, rest, [], st);
    assert ([line] + more)[0] == line;
    if s == [] {
      assert s + "!" == "!";
    } else {
      BodyAppend(s, "!", [], st, last);
    }
  }

  /** An invalid character after whole runs rejects the line. */
  lemma InvalidBody(st: Scan, s: string, c: char, rest: string, last: Scan)
    requires !IsDigit(c) && !IsTag(c) && c != '!'
    requires s == [] || IsTag(s[|s| - 1])
    requires BodyChars(s, [], st) == Returned(Go(last))
    ensures BodyChars(s + [c] + rest, [], st) == Returned(Reject)
  {
    InvalidChar(c, rest, [], last);
    if s == [] {
      assert s + [c] + rest == [c] + rest;
    } else {
      assert s + [c] + rest == s + ([c] + rest);
      BodyAppend(s, [c] + rest, [], st, last);
    }
  }

  /** An invalid character on a body line makes the whole result None, whatever lines follow. */
  lemma InvalidLine(st: Scan, line: string, s: string, c: char, rest: string, last: Scan, more: seq<string>)
    requires st.headerFinished && !IsDigit(c) && !IsTag(c) && c != '!'
    requires RemoveWhitespace(Trim(line)) == s + [c] + rest
    requires s == [] || IsTag(s[|s| - 1])
    requires BodyChars(s, [], st) == Returned(Go(last))
    ensures ScanLines(st, [line] + more) == Returned(None)
  {
    InvalidBody(st, s, c, rest, last);
    assert LineStep(st, line) == Returned(Reject);
    assert ([line] + more)[0] == line;
  }

  /** A file that cannot be opened gives None; a file without `!` gives what was read by its end. */
  lemma FileEnds(st: Scan)
    ensures RleFile(None) == Returned(None)
    ensures ScanLines(st, []) == Returned(Some(st.p))
  {
  }
}
