/**
 * The reader of Life patterns in the run-length encoded (RLE) format of LifeWiki and Golly.
 *
 * A file is a sequence of lines. Until the size line (`x = .., y = ..`) the reader looks at
 * header lines: `#N` names the pattern, `#O` gives its author, anything else is skipped. After
 * it, every line is a body line: whitespace is removed and each character is scanned. Digits
 * build up a run count; `o` appends that many live cells to the current row, `b` skips that
 * many cells, `$` moves down that many rows; `!` ends the pattern. A missing count means one.
 *
 * `ScanLines` and `BodyChars` define the reader line by line and character by character;
 * `ReadRle` is the reader itself, with the index bookkeeping (`last_idx`) of `read_rle`,
 * proved to compute exactly `RleFile`. Panics of `read_rle` (an `unwrap` that fails) are an
 * explicit `Panicked` outcome.
 */
module FileReader {
  import opened Wrappers
  import opened Text

  /** A decoded pattern: the live cells as (col, row), the declared size, name and author. */
  datatype Pattern = Pattern(pattern: seq<(nat, nat)>, width: nat, height: nat, name: string, author: string)

  /** `Pattern::default()`. */
  const Empty := Pattern([], 0, 0, "", "")

  /** How a call ends: with a value, or with a panic (a failed `unwrap`). */
  datatype Outcome<T> = Returned(value: T) | Panicked

  /** The reader between two characters: the pattern so far, whether the size line was read, the cursor. */
  datatype Scan = Scan(p: Pattern, headerFinished: bool, row: nat, col: nat)

  const Start := Scan(Empty, false, 0, 0)

  /** After a line or a run of characters: go on, stop at `!`, or give up on an invalid character. */
  datatype Flow = Go(next: Scan) | Halt(last: Scan) | Reject

  predicate IsTag(c: char) {
    c == '$' || c == 'o' || c == 'b'
  }

  /** `n` live cells in a row, from column `col` on. */
  function Run(col: nat, row: nat, n: nat): (cells: seq<(nat, nat)>)
    ensures |cells| == n
    ensures forall k | 0 <= k < n :: cells[k] == (col + k, row)
  {
    seq(n, k requires 0 <= k < n => (col + k, row))
  }

  /** `next` keeps the header fields of `st` and extends its cells. */
  predicate Grows(st: Scan, next: Scan) {
    && next.headerFinished == st.headerFinished
    && next.p.width == st.p.width && next.p.height == st.p.height
    && next.p.name == st.p.name && next.p.author == st.p.author
    && st.p.pattern <= next.p.pattern
  }

  /** A character a body line may not hold: not a digit, not a tag, not `!`. */
  predicate Invalid(c: char) {
    !IsDigit(c) && !IsTag(c) && c != '!'
  }

  /**
   * The cursor after the tag `tag` with run count `n`: `$` moves `n` rows down to column zero,
   * `o` and `b` move `n` columns right, and only `o` adds cells, `n` of them.
   */
  function Apply(tag: char, n: nat, st: Scan): (r: Scan)
    requires IsTag(tag)
    ensures Grows(st, r)
    ensures tag == '$' ==> r.row == st.row + n && r.col == 0
    ensures tag != '$' ==> r.row == st.row && r.col == st.col + n
    ensures |r.p.pattern| == |st.p.pattern| + (if tag == 'o' then n else 0)
  {
    if tag == '$' then st.(row := st.row + n, col := 0)
    else if tag == 'o' then st.(p := st.p.(pattern := st.p.pattern + Run(st.col, st.row, n)), col := st.col + n)
    else st.(col := st.col + n)
  }

  /** The count in front of a tag: one when there are no digits, otherwise their value (which must fit a `usize`). */
  function RunCount(pending: string): Option<nat> {
    if pending == [] then Some(1) else ParseUsize(pending)
  }

  /** Scanning the characters `s` of a body line, with the digits `pending` read since the last tag. */
  function BodyChars(s: string, pending: string, st: Scan): (r: Outcome<Flow>)
    ensures r.Returned? && r.value.Go? ==> Grows(st, r.value.next)
    ensures r.Returned? && r.value.Halt? ==> Grows(st, r.value.last) && '!' in s
    ensures r == Returned(Reject) ==> exists c | c in s :: Invalid(c)
    decreases |s|
  {
    if s == [] then Returned(Go(st))
    else if IsDigit(s[0]) then BodyChars(s[1..], pending + [s[0]], st)
    else if IsTag(s[0]) then
      match RunCount(pending)
      case None => Panicked
      case Some(n) => BodyChars(s[1..], [], Apply(s[0], n, st))
    else if s[0] == '!' then Returned(Halt(st))
    else assert s[0] in s; Returned(Reject)
  }

  /**
   * The size line with whitespace removed: the first comma-separated field, stripped of `x`
   * and `=`, is the width; the second, stripped of `y` and `=`, the height.
   */
  function SizeLine(st: Scan, s: string): (r: Outcome<Scan>)
    ensures r.Returned? ==> ',' in s && r.value.headerFinished
    ensures r.Returned? ==> r.value.p.pattern == st.p.pattern && r.value.row == st.row && r.value.col == st.col
    ensures r.Returned? ==> r.value.p.name == st.p.name && r.value.p.author == st.p.author
  {
    var w := ParseUsize(Strip(FirstPiece(s, ','), {'x', '='}));
    match AfterFirst(s, ',')
    case None => Panicked
    case Some(rest) =>
      var h := ParseUsize(Strip(FirstPiece(rest, ','), {'y', '='}));
      if w.None? || h.None? then Panicked
      else Returned(st.(p := st.p.(width := w.value, height := h.value), headerFinished := true))
  }

  /**
   * A trimmed header line. `read_rle` looks at its first two bytes, which exist as a string
   * only when they end on a character boundary: two one-byte characters, or one two-byte
   * character (in which case taking its first byte panics).
   */
  function HeaderLine(st: Scan, l: string): (r: Outcome<Scan>)
    ensures r.Returned? ==> r.value.p.pattern == st.p.pattern && r.value.row == st.row && r.value.col == st.col
    ensures r.Returned? && r.value.headerFinished != st.headerFinished ==> l != [] && l[0] == 'x'
  {
    if |l| >= 2 && Utf8Len(l[0]) == 1 && Utf8Len(l[1]) == 1 then
      if l[..2] == "#O" then Returned(st.(p := st.p.(author := l[2..])))
      else if l[..2] == "#N" then Returned(st.(p := st.p.(name := l[2..])))
      else if l[0] == 'x' then SizeLine(st, RemoveWhitespace(l))
      else Returned(st)
    else if |l| >= 1 && Utf8Len(l[0]) == 2 then Panicked
    else Returned(st)
  }

  /** One line of the file: trimmed, then read as a header line or as a body line. */
  function LineStep(st: Scan, line: string): (r: Outcome<Flow>)
    ensures !st.headerFinished && r.Returned? ==> r.value.Go? && r.value.next.p.pattern == st.p.pattern
    ensures st.headerFinished && r.Returned? && r.value.Go? ==> Grows(st, r.value.next)
    ensures r.Returned? && r.value.Halt? ==> st.headerFinished && Grows(st, r.value.last)
  {
    var l := Trim(line);
    if st.headerFinished then BodyChars(RemoveWhitespace(l), [], st)
    else match HeaderLine(st, l)
      case Panicked => Panicked
      case Returned(next) => Returned(Go(next))
  }

  /** The remaining lines of the file; running out of lines returns the pattern read so far. */
  function ScanLines(st: Scan, lines: seq<string>): (r: Outcome<Option<Pattern>>)
    ensures r.Returned? && r.value.Some? ==> st.p.pattern <= r.value.value.pattern
    decreases |lines|
  {
    if lines == [] then Returned(Some(st.p))
    else match LineStep(st, lines[0])
      case Panicked => Panicked
      case Returned(Go(next)) => ScanLines(next, lines[1..])
      case Returned(Halt(last)) => Returned(Some(last.p))
      case Returned(Reject) => Returned(None)
  }

  /** The whole reader; `None` for the file is a file that could not be opened. */
  function RleFile(file: Option<seq<string>>): (r: Outcome<Option<Pattern>>)
    ensures file.None? ==> r == Returned(None)
    ensures file == Some([]) ==> r == Returned(Some(Empty))
  {
    match file
    case None => Returned(None)
    case Some(lines) => ScanLines(Start, lines)
  }

  /** The push loop of a counted `o`: `n` live cells from column `col` of row `row` appended to `pattern`. */
  method PushRun(pattern: seq<(nat, nat)>, col: nat, row: nat, n: nat) returns (r: seq<(nat, nat)>)
    ensures r == pattern + Run(col, row, n)
  {
    r := pattern;
    for k := 0 to n
      invariant r == pattern + Run(col, row, k)
    {
      assert Run(col, row, k + 1) == Run(col, row, k) + [(col + k, row)];
      r := r + [(col + k, row)];
    }
  }

  /**
   * One tag of a body line with the digits in front of it: `$` moves down and back to column
   * zero, `o` pushes live cells, `b` skips cells. None is the panic of parsing a count too large
   * for a `usize`.
   */
  method RunTag(tag: char, digits: string, cur: Scan) returns (r: Option<Scan>)
    requires IsTag(tag) && AllDigits(digits)
    ensures r.None? <==> RunCount(digits).None?
    ensures r.Some? ==> r.value == Apply(tag, RunCount(digits).value, cur)
  {
    var next := cur;
    if tag == '$' {
      if digits == [] {
        next := next.(row := next.row + 1);
      } else {
        var num := ParseUsize(digits);
        if num.None? {
          return None;
        }
        next := next.(row := next.row + num.value);
      }
      next := next.(col := 0);
    } else if tag == 'o' {
      if digits == [] {
        next := next.(p := next.p.(pattern := next.p.pattern + [(next.col, next.row)]));
        next := next.(col := next.col + 1);
      } else {
        var num := ParseUsize(digits);
        if num.None? {
          return None;
        }
        var pattern := PushRun(next.p.pattern, next.col, next.row, num.value);
        next := next.(p := next.p.(pattern := pattern));
        next := next.(col := next.col + num.value);
      }
    } else {
      if digits == [] {
        next := next.(col := next.col + 1);
      } else {
        var num := ParseUsize(digits);
        if num.None? {
          return None;
        }
        next := next.(col := next.col + num.value);
      }
    }
    r := Some(next);
  }

  /**
   * The character loop of `read_rle` over one body line `s` (trimmed, whitespace removed),
   * starting from `st`. `last_idx` is the index of the last tag, so the digits of a count are
   * `s[last_idx + 1..j]`.
   */
  method ScanBody(s: string, st: Scan) returns (r: Outcome<Flow>)
    ensures r == BodyChars(s, [], st)
  {
    var cur := st;
    var lastIdx: int := -1;
    var j := 0;
    while j < |s|
      invariant 0 <= j <= |s| && -1 <= lastIdx < j
      invariant AllDigits(s[lastIdx + 1..j])
      invariant BodyChars(s[j..], s[lastIdx + 1..j], cur) == BodyChars(s, [], st)
    {
      var c := s[j];
      assert s[j..][0] == c && s[j..][1..] == s[j + 1..];
      if IsDigit(c) {
        assert s[lastIdx + 1..j + 1] == s[lastIdx + 1..j] + [c];
      } else if IsTag(c) {
        var next := RunTag(c, s[lastIdx + 1..j], cur);
        if next.None? {
          return Panicked;
        }
        cur := next.value;
        lastIdx := j;
      } else if c == '!' {
        return Returned(Halt(cur));
      } else {
        return Returned(Reject);
      }
      j := j + 1;
    }
    r := Returned(Go(cur));
  }

  /** The header branch of `read_rle` for one trimmed line `l`. */
  method ReadHeader(l: string, st: Scan) returns (r: Outcome<Scan>)
    ensures r == HeaderLine(st, l)
  {
    var p := st.p;
    if |l| >= 2 && Utf8Len(l[0]) == 1 && Utf8Len(l[1]) == 1 {
      var tag := l[..2];
      if tag == "#O" {
        p := p.(author := l[2..]);
      } else if tag == "#N" {
        p := p.(name := l[2..]);
      } else if l[0] == 'x' {
        var s := RemoveWhitespace(l);
        var w := ParseUsize(Strip(FirstPiece(s, ','), {'x', '='}));
        if w.None? {
          return Panicked;
        }
        var rest := AfterFirst(s, ',');
        if rest.None? {
          return Panicked;
        }
        var h := ParseUsize(Strip(FirstPiece(rest.value, ','), {'y', '='}));
        if h.None? {
          return Panicked;
        }
        p := p.(width := w.value, height := h.value);
        return Returned(st.(p := p, headerFinished := true));
      }
    } else if |l| >= 1 && Utf8Len(l[0]) == 2 {
      return Panicked;
    }
    r := Returned(st.(p := p));
  }

  /** `read_rle`, over the lines of the file. */
  method ReadRle(file: Option<seq<string>>) returns (r: Outcome<Option<Pattern>>)
    ensures r == RleFile(file)
  {
    if file.None? {
      return Returned(None);
    }
    var lines := file.value;
    var st := Start;
    var i := 0;
    while i < |lines|
      invariant 0 <= i <= |lines|
      invariant ScanLines(st, lines[i..]) == RleFile(file)
    {
      assert lines[i..][0] == lines[i] && lines[i..][1..] == lines[i + 1..];
      var l := Trim(lines[i]);
      if st.headerFinished {
        var flow := ScanBody(RemoveWhitespace(l), st);
        match flow {
          case Panicked => return Panicked;
          case Returned(Reject) => return Returned(None);
          case Returned(Halt(last)) => return Returned(Some(last.p));
          case Returned(Go(next)) => st := next;
        }
      } else {
        var header := ReadHeader(l, st);
        match header {
          case Panicked => return Panicked;
          case Returned(next) => st := next;
        }
      }
      i := i + 1;
    }
    r := Returned(Some(st.p));
  }
}
