/**
 * String and colour helpers of src/lib/utils.ts: `truncate`, `getInitials`,
 * `isValidEmail`, `getAvatarColor`, `getPriorityColor`, `getStatusColor`.
 */
module TextUtils {
  import opened Types

  // ---------------------------------------------------------------- truncate

  /** `text.slice(0, end)` for `0 <= |text|`: a negative end counts from the back. */
  function SliceTo(text: string, end: int): (r: string)
    ensures r <= text
    ensures end >= 0 ==> |r| == (if end <= |text| then end else |text|)
    ensures end < 0 ==> |r| == (if |text| + end >= 0 then |text| + end else 0)
  {
    if end >= 0 then text[..if end <= |text| then end else |text|]
    else text[..if |text| + end >= 0 then |text| + end else 0]
  }

  /** `truncate(text, length)`. */
  function Truncate(text: string, length: int): (r: string)
    ensures |text| <= length ==> r == text
    ensures 0 <= length < |text| ==> r == text[..length] + "..." && |r| == length + 3
    ensures length < 0 ==> r == SliceTo(text, length) + "..."
  {
    if |text| <= length then text
    else SliceTo(text, length) + "..."
  }

  /**
   * A truncated text still begins with as much of the original as was kept,
   * and the rest is the ellipsis: a standalone property of `Truncate` for a
   * non-negative length.
   */
  lemma TruncateKeepsPrefix(text: string, length: int)
    requires 0 <= length
    ensures var r := Truncate(text, length);
      (r == text || (|r| == length + 3 && r[..length] == text[..length] && r[length..] == "..."))
  {
  }

  // ------------------------------------------------------------- getInitials

  /** `words.join(" ")`: the pieces with one space between neighbours. */
  function Join(words: seq<string>): string {
    if words == [] then ""
    else if |words| == 1 then words[0]
    else words[0] + " " + Join(words[1..])
  }

  /** `s.split(" ")`: the pieces between single spaces; empty pieces are kept. */
  function Split(s: string): (words: seq<string>)
    ensures |words| >= 1
    ensures forall i :: 0 <= i < |words| ==> ' ' !in words[i]
    ensures Join(words) == s
  {
    if s == [] then [""]
    else if s[0] == ' ' then [""] + Split(s[1..])
    else
      var rest := Split(s[1..]);
      [[s[0]] + rest[0]] + rest[1..]
  }

  /**
   * `.map((n) => n[0]).join("")`: the first character of every piece; an empty
   * piece gives `undefined`, which `join` writes as nothing.
   */
  function FirstChars(words: seq<string>): string {
    if words == [] then []
    else (if words[0] == [] then [] else [words[0][0]]) + FirstChars(words[1..])
  }

  /** `toUpperCase` on one character, for the ASCII letters. */
  function UpperChar(c: char): char {
    if 'a' <= c <= 'z' then (c as int - 32) as char else c
  }

  function Upper(s: string): (r: string)
    ensures |r| == |s|
    ensures forall i :: 0 <= i < |s| ==> r[i] == UpperChar(s[i])
  {
    if s == [] then [] else [UpperChar(s[0])] + Upper(s[1..])
  }

  /** `getInitials(name)`. */
  function GetInitials(name: string): (r: string)
    ensures |r| <= 2
  {
    var joined := Upper(FirstChars(Split(name)));
    joined[..if |joined| < 2 then |joined| else 2]
  }

  /**
   * Reference definition of the initials, scanning the name once: a character
   * is an initial when it is not a space and stands first or after a space.
   */
  function WordStarts(s: string, afterSpace: bool): string {
    if s == [] then []
    else (if s[0] != ' ' && afterSpace then [s[0]] else []) + WordStarts(s[1..], s[0] == ' ')
  }

  /** Splitting and taking first characters marks exactly the word starts. */
  lemma {:induction false} FirstCharsOfSplit(s: string)
    ensures FirstChars(Split(s)) == WordStarts(s, true)
    ensures FirstChars(Split(s)[1..]) == WordStarts(s, false)
  {
    if s != [] {
      FirstCharsOfSplit(s[1..]);
      var rest := Split(s[1..]);
      if s[0] == ' ' {
        assert Split(s)[1..] == rest;
        assert FirstChars(Split(s)) == FirstChars(rest);
      } else {
        var w := [s[0]] + rest[0];
        assert Split(s)[1..] == rest[1..];
        assert FirstChars(Split(s)) == [w[0]] + FirstChars(rest[1..]);
      }
    }
  }

  /**
   * `getInitials` returns the upper-cased first characters of the space-separated
   * words, at most two of them; empty words contribute nothing.
   */
  lemma GetInitialsAreWordStarts(name: string)
    ensures var starts := Upper(WordStarts(name, true));
      GetInitials(name) == starts[..if |starts| < 2 then |starts| else 2]
  {
    FirstCharsOfSplit(name);
  }

  /**
   * Every word start is a character of the string and not a space: with
   * `GetInitialsAreWordStarts`, every initial comes from the name itself.
   */
  lemma {:induction false} WordStartsFrom(s: string, afterSpace: bool)
    ensures forall c :: c in WordStarts(s, afterSpace) ==> c in s && c != ' '
  {
    if s != [] {
      WordStartsFrom(s[1..], s[0] == ' ');
    }
  }

  // ------------------------------------------------------------ isValidEmail

  /** `\s` of a JavaScript regular expression. */
  predicate IsWhitespace(c: char) {
    var n := c as int;
    || 0x09 <= n <= 0x0D  // tab, line feed, vertical tab, form feed, carriage return
    || n == 0x20 || n == 0xA0 || n == 0x1680
    || 0x2000 <= n <= 0x200A
    || n == 0x2028 || n == 0x2029 || n == 0x202F || n == 0x205F
    || n == 0x3000 || n == 0xFEFF
  }

  /** `[^\s@]+`: one or more characters, none whitespace and none '@'. */
  predicate PlainRun(t: string) {
    |t| > 0 && forall k :: 0 <= k < |t| ==> !IsWhitespace(t[k]) && t[k] != '@'
  }

  /**
   * `/^[^\s@]+@[^\s@]+\.[^\s@]+$/.test(email)`: some '@' at i and '.' at j cut
   * the string into three plain runs.
   */
  predicate IsValidEmail(email: string): (r: bool)
    ensures r ==> |email| >= 5
    ensures r ==> forall k :: 0 <= k < |email| ==> !IsWhitespace(email[k])
  {
    exists i, j :: 0 <= i < j < |email|
      && email[i] == '@' && email[j] == '.'
      && PlainRun(email[..i]) && PlainRun(email[i + 1..j]) && PlainRun(email[j + 1..])
  }

  /** The shape of a valid address, stated without the pattern. */
  predicate EmailShape(email: string) {
    && (forall k :: 0 <= k < |email| ==> !IsWhitespace(email[k]))
    && (exists i :: 0 < i < |email| && email[i] == '@'
         && (forall k :: 0 <= k < |email| && k != i ==> email[k] != '@')
         && (exists j :: i + 1 < j < |email| - 1 && email[j] == '.'))
  }

  /** A slice `s[a..b]` is a plain run iff it is non-empty and every character in it is plain. */
  lemma PlainRunSlice(s: string, a: nat, b: nat)
    requires a <= b <= |s|
    ensures PlainRun(s[a..b]) <==> a < b && forall k :: a <= k < b ==> !IsWhitespace(s[k]) && s[k] != '@'
  {
    if PlainRun(s[a..b]) {
      forall k | a <= k < b ensures !IsWhitespace(s[k]) && s[k] != '@' {
        assert s[a..b][k - a] == s[k];
      }
    }
    if a < b && forall k :: a <= k < b ==> !IsWhitespace(s[k]) && s[k] != '@' {
      forall k | 0 <= k < b - a ensures !IsWhitespace(s[a..b][k]) && s[a..b][k] != '@' {
        assert s[a..b][k] == s[a + k];
      }
    }
  }

  lemma {:induction false} ValidEmailHasShape(email: string)
    requires IsValidEmail(email)
    ensures EmailShape(email)
  {
    var i, j :| 0 <= i < j < |email|
      && email[i] == '@' && email[j] == '.'
      && PlainRun(email[..i]) && PlainRun(email[i + 1..j]) && PlainRun(email[j + 1..]);
    assert email[..i] == email[0..i] && email[j + 1..] == email[j + 1..|email|];
    PlainRunSlice(email, 0, i);
    PlainRunSlice(email, i + 1, j);
    PlainRunSlice(email, j + 1, |email|);
    assert 0 < i && i + 1 < j < |email| - 1;
    forall k | 0 <= k < |email| && k != i
      ensures !IsWhitespace(email[k]) && email[k] != '@'
    {
      if k < i {
      } else if k < j {
      } else if k > j {
      }
    }
    assert i + 1 < j < |email| - 1 && email[j] == '.';
  }

  lemma {:induction false} ShapeIsValidEmail(email: string)
    requires EmailShape(email)
    ensures IsValidEmail(email)
  {
    var i :| 0 < i < |email| && email[i] == '@'
      && (forall k :: 0 <= k < |email| && k != i ==> email[k] != '@')
      && (exists j :: i + 1 < j < |email| - 1 && email[j] == '.');
    var j :| i + 1 < j < |email| - 1 && email[j] == '.';
    assert email[..i] == email[0..i] && email[j + 1..] == email[j + 1..|email|];
    PlainRunSlice(email, 0, i);
    PlainRunSlice(email, i + 1, j);
    PlainRunSlice(email, j + 1, |email|);
  }

  /**
   * An address matches the pattern exactly when it has no whitespace, exactly one
   * '@' with a non-empty local part before it, and a '.' in the domain that is
   * neither its first nor its last character.
   */
  lemma IsValidEmailShape(email: string)
    ensures IsValidEmail(email) <==> EmailShape(email)
  {
    if IsValidEmail(email) {
      ValidEmailHasShape(email);
    }
    if EmailShape(email) {
      ShapeIsValidEmail(email);
    }
  }

  // ---------------------------------------------------------- getAvatarColor

  const AvatarColors: seq<string> := [
    "bg-blue-500", "bg-purple-500", "bg-pink-500", "bg-green-500",
    "bg-yellow-500", "bg-red-500", "bg-indigo-500", "bg-cyan-500"
  ]

  /**
   * `s.charCodeAt(0)` for the character `c` at the front: the UTF-16 code unit,
   * which for a character beyond U+FFFF is its high surrogate.
   */
  function FirstCodeUnit(c: char): (u: int)
    ensures 0 <= u < 0x1_0000
    ensures c as int < 0x1_0000 ==> u == c as int
    ensures c as int >= 0x1_0000 ==> 0xD800 <= u < 0xDC00
  {
    if c as int < 0x1_0000 then c as int
    else 0xD800 + (c as int - 0x1_0000) / 0x400
  }

  /**
   * `getAvatarColor(name)`. For an empty name `charCodeAt(0)` is NaN and the
   * lookup yields `undefined`, modelled as None.
   */
  function GetAvatarColor(name: string): (r: Option<string>)
    ensures r.Some? <==> |name| > 0
    ensures r.Some? ==> r.value in AvatarColors
  {
    if |name| == 0 then None
    else
      var index := FirstCodeUnit(name[0]) % |AvatarColors|;
      Some(AvatarColors[index])
  }

  /** The colour is chosen by the first character alone: names whose first code units agree mod 8 share it. */
  lemma AvatarColorByFirstChar(a: string, b: string)
    requires |a| > 0 && |b| > 0
    ensures FirstCodeUnit(a[0]) % 8 == FirstCodeUnit(b[0]) % 8 ==> GetAvatarColor(a) == GetAvatarColor(b)
  {
  }

  // ----------------------------------------------------- priority and status

  const UrgentColor := "text-red-500 bg-red-500/10 border-red-500/20"
  const ImportantColor := "text-yellow-500 bg-yellow-500/10 border-yellow-500/20"
  const NormalColor := "text-blue-500 bg-blue-500/10 border-blue-500/20"

  /** `getPriorityColor(priority)`: red, yellow, and blue for anything else. */
  function GetPriorityColor(priority: string): (r: string)
    ensures r == UrgentColor <==> priority == "urgent"
    ensures r == ImportantColor <==> priority == "important"
    ensures r == NormalColor <==> priority != "urgent" && priority != "important"
  {
    match priority
    case "urgent" => UrgentColor
    case "important" => ImportantColor
    case _ => NormalColor
  }

  const PaidColor := "text-green-500 bg-green-500/10 border-green-500/20"
  const PendingColor := "text-yellow-500 bg-yellow-500/10 border-yellow-500/20"
  const UnknownStatusColor := "text-gray-500 bg-gray-500/10 border-gray-500/20"

  /** `getStatusColor(status)`: green, yellow, and grey for anything else. */
  function GetStatusColor(status: string): (r: string)
    ensures r == PaidColor <==> status == "paid"
    ensures r == PendingColor <==> status == "pending"
    ensures r == UnknownStatusColor <==> status != "paid" && status != "pending"
  {
    match status
    case "paid" => PaidColor
    case "pending" => PendingColor
    case _ => UnknownStatusColor
  }
}
