/** Offers as strings: pieces joined by "+", in base 32 without a checksum. */
module OfferString {
  import opened Wrappers
  import opened Bytes
  import opened Base32

  datatype StringError =
    | IncorrectSplit    // an empty piece: consecutive, leading or trailing "+"
    | BadCharacter      // not a visible ASCII character
    | BadLength
    | MixedCase
    | BadSeparator      // the last "1" is missing or misplaced
    | NotInCharset
    | BadHRP            // not the prefix of an offer
    | IncompleteGroup   // more than four bits left over, or not zero

  const CHARSET: string := "qpzry9x8gf2tvdw0s3jn54khce6mua7l"
  const OFFER_HRP: string := "lno"

  // ---------- characters ----------

  predicate IsASCII(c: char) {
    33 <= c as int <= 126
  }

  predicate AllASCII(s: string) {
    forall i :: 0 <= i < |s| ==> IsASCII(s[i])
  }

  /** White space as Unicode defines it. */
  predicate IsSpace(c: char) {
    var n := c as int;
    9 <= n <= 13 || n == 0x20 || n == 0x85 || n == 0xA0 || n == 0x1680 || 0x2000 <= n <= 0x200a
    || n == 0x2028 || n == 0x2029 || n == 0x202f || n == 0x205f || n == 0x3000
  }

  predicate Spaces(s: string) {
    forall i :: 0 <= i < |s| ==> IsSpace(s[i])
  }

  function Lower(c: char): char {
    if 'A' <= c <= 'Z' then c + 32 as char else c
  }

  function Upper(c: char): char {
    if 'a' <= c <= 'z' then c - 32 as char else c
  }

  function ToLower(s: string): (r: string)
    ensures |r| == |s|
  {
    seq(|s|, i requires 0 <= i < |s| => Lower(s[i]))
  }

  function ToUpper(s: string): (r: string)
    ensures |r| == |s|
  {
    seq(|s|, i requires 0 <= i < |s| => Upper(s[i]))
  }

  // ---------- splitting at "+" ----------

  function Split(s: string): (parts: seq<string>)
    ensures |parts| >= 1
  {
    if s == "" then [""]
    else if s[0] == '+' then [""] + Split(s[1..])
    else [[s[0]] + Split(s[1..])[0]] + Split(s[1..])[1..]
  }

  function Join(parts: seq<string>): string
    requires parts != []
  {
    if |parts| == 1 then parts[0] else parts[0] + "+" + Join(parts[1..])
  }

  function Concat(parts: seq<string>): string {
    if parts == [] then "" else Concat(parts[..|parts| - 1]) + parts[|parts| - 1]
  }

  function TrimLeft(s: string): string {
    if s != "" && IsSpace(s[0]) then TrimLeft(s[1..]) else s
  }

  function TrimRight(s: string): string {
    if s != "" && IsSpace(s[|s| - 1]) then TrimRight(s[..|s| - 1]) else s
  }

  function TrimSpace(s: string): string {
    TrimRight(TrimLeft(s))
  }

  /** The parts without the space around them, joined; no part may be empty to begin with. */
  function Strip(parts: seq<string>): Result<string, StringError> {
    if parts == [] then Ok("")
    else if parts[0] == "" then Err(IncorrectSplit)
    else if !AllASCII(TrimSpace(parts[0])) then Err(BadCharacter)
    else
      var rest :- Strip(parts[1..]);
      Ok(TrimSpace(parts[0]) + rest)
  }

  method CheckASCII(str: string) returns (ok: bool)
    ensures ok == AllASCII(str)
  {
    for i := 0 to |str|
      invariant forall k :: 0 <= k < i ==> IsASCII(str[k])
    {
      if str[i] as int < 33 || str[i] as int > 126 {
        return false;
      }
    }
    return true;
  }

  /** A result with text put in front. */
  function After(text: string, r: Result<string, StringError>): Result<string, StringError> {
    if r.Ok? then Ok(text + r.value) else r
  }

  lemma StripStep(parts: seq<string>, i: nat, text: string)
    requires i < |parts|
    ensures parts[i] == "" ==> After(text, Strip(parts[i..])) == Err(IncorrectSplit)
    ensures parts[i] != "" && !AllASCII(TrimSpace(parts[i])) ==> After(text, Strip(parts[i..])) == Err(BadCharacter)
    ensures parts[i] != "" && AllASCII(TrimSpace(parts[i])) ==>
              After(text, Strip(parts[i..])) == After(text + TrimSpace(parts[i]), Strip(parts[i + 1..]))
  {
    assert parts[i..][1..] == parts[i + 1..];
    if parts[i] != "" && AllASCII(TrimSpace(parts[i])) && Strip(parts[i + 1..]).Ok? {
      var rest := Strip(parts[i + 1..]).value;
      assert text + (TrimSpace(parts[i]) + rest) == (text + TrimSpace(parts[i])) + rest;
    }
  }

  method StripOffer(offer: string) returns (r: Result<string, StringError>)
    ensures r == Strip(Split(offer))
  {
    hide Strip, TrimSpace, AllASCII, Split;
    var parts := Split(offer);
    ghost var original := parts;
    assert After("", Strip(original)) == Strip(original) by { PutNothingInFront(Strip(original)); }
    assert original[0..] == original;
    for i := 0 to |parts|
      invariant |parts| == |original| && parts[i..] == original[i..]
      invariant Strip(original) == After(Concat(parts[..i]), Strip(original[i..]))
    {
      var part := parts[i];
      assert part == parts[i..][0] == original[i..][0] == original[i];
      StripStep(original, i, Concat(parts[..i]));
      if part == "" {
        return Err(IncorrectSplit);
      }
      ghost var before := parts[..i];
      parts := parts[i := TrimSpace(part)];
      var ok := CheckASCII(parts[i]);
      if !ok {
        return Err(BadCharacter);
      }
      ConcatSnoc(parts, before, i);
    }
    assert parts[..|parts|] == parts && original[|original|..] == [];
    StripNone(Concat(parts));
    return Ok(Concat(parts));
  }

  lemma PutNothingInFront(r: Result<string, StringError>)
    ensures After("", r) == r
  {
    if r.Ok? {
      assert "" + r.value == r.value;
    }
  }

  lemma StripNone(text: string)
    ensures After(text, Strip([])) == Ok(text)
  {
    assert text + "" == text;
  }

  lemma ConcatSnoc(parts: seq<string>, before: seq<string>, i: nat)
    requires i < |parts| && before == parts[..i]
    ensures Concat(parts[..i + 1]) == Concat(before) + parts[i]
  {
    assert parts[..i + 1][..i] == before;
  }

  // ---------- base 32 ----------

  /** The first index of a character, or -1. */
  function IndexByte(s: string, c: char): (i: int)
    ensures -1 <= i < |s|
    ensures i >= 0 ==> s[i] == c
    ensures i < 0 ==> c !in s
  {
    if s == "" then -1
    else if s[0] == c then 0
    else
      var i := IndexByte(s[1..], c);
      if i < 0 then -1 else i + 1
  }

  /** The last index of a character, or -1. */
  function LastIndexByte(s: string, c: char): (i: int)
    ensures -1 <= i < |s|
    ensures i >= 0 ==> s[i] == c && forall k :: i < k < |s| ==> s[k] != c
    ensures i < 0 ==> c !in s
  {
    if s == "" then -1
    else if s[|s| - 1] == c then |s| - 1
    else LastIndexByte(s[..|s| - 1], c)
  }

  /** The digits that characters stand for. */
  function DigitsOf(chars: string): Result<seq<digit>, StringError> {
    if chars == "" then Ok([]) else
    var front :- DigitsOf(chars[..|chars| - 1]);
    var index := IndexByte(CHARSET, chars[|chars| - 1]);
    if index < 0 then Err(NotInCharset) else Ok(front + [index])
  }

  lemma {:induction false} DigitsOfFails(chars: string, i: nat)
    requires i < |chars| && IndexByte(CHARSET, chars[i]) < 0
    ensures DigitsOf(chars) == Err(NotInCharset)
  {
    if i < |chars| - 1 {
      DigitsOfFails(chars[..|chars| - 1], i);
    } else if DigitsOf(chars[..i]).Err? {
      OneFailure(chars[..i]);
    }
  }

  lemma {:induction false} OneFailure(chars: string)
    ensures DigitsOf(chars).Err? ==> DigitsOf(chars) == Err(NotInCharset)
  {
    if chars != "" {
      OneFailure(chars[..|chars| - 1]);
    }
  }

  method ToBytes(chars: string) returns (r: Result<seq<digit>, StringError>)
    ensures r == DigitsOf(chars)
  {
    var decoded: seq<digit> := [];
    for i := 0 to |chars|
      invariant DigitsOf(chars[..i]) == Ok(decoded)
    {
      assert chars[..i + 1][..i] == chars[..i];
      var index := IndexByte(CHARSET, chars[i]);
      if index < 0 {
        DigitsOfFails(chars, i);
        return Err(NotInCharset);
      }
      decoded := decoded + [index];
    }
    assert chars[..|chars|] == chars;
    return Ok(decoded);
  }

  function Bech32Of(bech: string): Result<(string, seq<digit>), StringError> {
    if |bech| < 8 then Err(BadLength)
    else if !AllASCII(bech) then Err(BadCharacter)
    else if bech != ToLower(bech) && bech != ToUpper(bech) then Err(MixedCase)
    else
      var lower := ToLower(bech);
      var one := LastIndexByte(lower, '1');
      if one < 1 || one + 7 > |lower| then Err(BadSeparator)
      else
        var data :- DigitsOf(lower[one + 1..]);
        Ok((lower[..one], data))
  }

  method DecodeBech32(input: string) returns (r: Result<(string, seq<digit>), StringError>)
    ensures r == Bech32Of(input)
  {
    hide DigitsOf, LastIndexByte, ToLower, ToUpper, AllASCII, CHARSET;
    var bech := input;
    if |bech| < 8 {
      return Err(BadLength);
    }
    var visible := CheckASCII(bech);
    if !visible {
      return Err(BadCharacter);
    }
    var lower, upper := ToLower(bech), ToUpper(bech);
    if bech != lower && bech != upper {
      return Err(MixedCase);
    }
    bech := lower;
    var one := LastIndexByte(bech, '1');
    if one < 1 || one + 7 > |bech| {
      return Err(BadSeparator);
    }
    var hrp, data := bech[..one], bech[one + 1..];
    var decoded := ToBytes(data);
    if decoded.Err? {
      return Err(decoded.error);
    }
    return Ok((hrp, decoded.value));
  }

  /** The byte string that an offer string carries. */
  function BytesOf(offer: string): Result<seq<byte>, StringError> {
    var clean :- Strip(Split(offer));
    var parts :- Bech32Of(clean);
    if parts.0 != OFFER_HRP then Err(BadHRP)
    else
      match ConvertBits(parts.1)
      case None => Err(IncompleteGroup)
      case Some(bytes) => Ok(bytes)
  }

  // ---------- writing an offer string ----------

  function Chars(ds: seq<digit>): (s: string)
    ensures |s| == |ds| && forall i :: 0 <= i < |s| ==> s[i] == CHARSET[ds[i]]
  {
    seq(|ds|, i requires 0 <= i < |ds| => CHARSET[ds[i]])
  }

  /** The string form of a byte string, in one case. */
  function Form(bs: seq<byte>, upper: bool): string {
    var s := OFFER_HRP + "1" + Chars(Digits(bs));
    if upper then ToUpper(s) else s
  }

  /** A piece of the form with white space around it. */
  datatype Piece = Piece(before: string, text: string, after: string) {
    function Whole(): string {
      before + text + after
    }
  }

  function Wholes(pieces: seq<Piece>): (parts: seq<string>)
    ensures |parts| == |pieces|
  {
    seq(|pieces|, i requires 0 <= i < |pieces| => pieces[i].Whole())
  }

  function Texts(pieces: seq<Piece>): string {
    if pieces == [] then "" else pieces[0].text + Texts(pieces[1..])
  }

  // ---------- the character set ----------

  /** The inverse of the character set. */
  function Rank(c: char): int {
    match c
    case 'q' => 0 case 'p' => 1 case 'z' => 2 case 'r' => 3
    case 'y' => 4 case '9' => 5 case 'x' => 6 case '8' => 7
    case 'g' => 8 case 'f' => 9 case '2' => 10 case 't' => 11
    case 'v' => 12 case 'd' => 13 case 'w' => 14 case '0' => 15
    case 's' => 16 case '3' => 17 case 'j' => 18 case 'n' => 19
    case '5' => 20 case '4' => 21 case 'k' => 22 case 'h' => 23
    case 'c' => 24 case 'e' => 25 case '6' => 26 case 'm' => 27
    case 'u' => 28 case 'a' => 29 case '7' => 30 case 'l' => 31
    case _ => -1
  }

  lemma CharsetRanks()
    ensures |CHARSET| == 32
    ensures forall d :: 0 <= d < 32 ==> Rank(CHARSET[d]) == d
  {
  }

  /** Lower-case letters and digits. */
  predicate Plain(c: char) {
    'a' <= c <= 'z' || '0' <= c <= '9'
  }

  lemma CharsetPlain()
    ensures |CHARSET| == 32
    ensures forall d :: 0 <= d < 32 ==> Plain(CHARSET[d]) && CHARSET[d] != '1'
  {
  }

  /** A digit's character stands for that digit. */
  lemma IndexOfChar(d: digit)
    ensures |CHARSET| == 32 && IndexByte(CHARSET, CHARSET[d]) == d
  {
    CharsetRanks();
    hide CHARSET, Rank;
    var i := IndexByte(CHARSET, CHARSET[d]);
    assert CHARSET[d] in CHARSET;
    assert Rank(CHARSET[i]) == i && Rank(CHARSET[d]) == d;
  }

  // ---------- the form reads back ----------

  lemma {:induction false} DigitsOfChars(ds: seq<digit>)
    ensures DigitsOf(Chars(ds)) == Ok(ds)
  {
    hide CHARSET;
    if ds != [] {
      var n := |ds| - 1;
      DigitsOfChars(ds[..n]);
      assert Chars(ds)[..n] == Chars(ds[..n]);
      IndexOfChar(ds[n]);
      assert ds == ds[..n] + [ds[n]];
    } else {
      assert Chars(ds) == "";
    }
  }

  lemma {:induction false} CharsOfDigits(chars: string)
    requires DigitsOf(chars).Ok?
    ensures Chars(DigitsOf(chars).value) == chars
  {
    hide CHARSET;
    if chars != "" {
      var n := |chars| - 1;
      CharsOfDigits(chars[..n]);
      var front, ds := DigitsOf(chars[..n]).value, DigitsOf(chars).value;
      assert ds == front + [IndexByte(CHARSET, chars[n])];
      assert Chars(ds) == Chars(front) + [chars[n]];
      assert chars == chars[..n] + [chars[n]];
    }
  }

  /** The lower-case form: every character is a lower-case letter or a digit, the one "1" is the separator. */
  lemma LowerForm(bs: seq<byte>)
    ensures var s := Form(bs, false);
            && |s| == 4 + DigitCount(|bs|)
            && s[..3] == OFFER_HRP && s[3] == '1' && s[4..] == Chars(Digits(bs))
            && (forall i :: 0 <= i < |s| ==> Plain(s[i]))
            && (forall i :: 4 <= i < |s| ==> s[i] != '1')
  {
    CharsetPlain();
    hide CHARSET, Digits;
    var s, tail := Form(bs, false), Chars(Digits(bs));
    assert s == OFFER_HRP + "1" + tail;
    forall i | 4 <= i < |s| ensures Plain(s[i]) && s[i] != '1' {
      assert s[i] == tail[i - 4] == CHARSET[Digits(bs)[i - 4]];
    }
  }

  /** Either case of the form is visible, in one case, and comes down to the lower-case form. */
  lemma CasedForm(bs: seq<byte>, upper: bool)
    ensures var s := Form(bs, upper);
            && ToLower(s) == Form(bs, false) && AllASCII(s)
            && (s == ToLower(s) || s == ToUpper(s))
            && forall i :: 0 <= i < |s| ==> !IsSpace(s[i]) && s[i] != '+'
  {
    LowerForm(bs);
    var low, s := Form(bs, false), Form(bs, upper);
    assert s == if upper then ToUpper(low) else low;
    hide Form;
    assert ToLower(s) == low;
    if upper {
      assert ToUpper(s) == s;
    }
  }

  /** The form decodes exactly when there are four bytes or more. */
  lemma FormDecodes(bs: seq<byte>, upper: bool)
    ensures Bech32Of(Form(bs, upper)).Ok? <==> |bs| >= 4
    ensures |bs| >= 4 ==> Bech32Of(Form(bs, upper)) == Ok((OFFER_HRP, Digits(bs)))
  {
    LowerForm(bs);
    CasedForm(bs, upper);
    DigitsOfChars(Digits(bs));
    hide Form, DigitsOf, AllASCII, Digits, Chars, Plain;
    var low := Form(bs, false);
    assert LastIndexByte(low, '1') == 3;
    assert low[3 + 1..] == low[4..];
  }

  lemma UpperOfLower(s: string)
    ensures ToUpper(ToLower(s)) == ToUpper(s)
  {
  }

  lemma LowerIsForm(lower: string, bs: seq<byte>)
    requires |lower| >= 4 && lower[..3] == OFFER_HRP && lower[3] == '1' && lower[4..] == Chars(Digits(bs))
    ensures lower == Form(bs, false)
  {
    hide Chars, Digits;
    assert lower == lower[..3] + [lower[3]] + lower[4..];
  }

  /** What decodes as an offer's data is the form of the bytes, in one case. */
  lemma DecodedForm(clean: string)
    requires Bech32Of(clean).Ok? && Bech32Of(clean).value.0 == OFFER_HRP && ConvertBits(Bech32Of(clean).value.1).Some?
    ensures var bs := ConvertBits(Bech32Of(clean).value.1).value;
            clean == Form(bs, false) || clean == Form(bs, true)
  {
    hide ConvertBits, DigitsOf, Digits, Chars, AllASCII, CHARSET, LastIndexByte, Form, ToLower, ToUpper;
    var lower, data := ToLower(clean), Bech32Of(clean).value.1;
    var one := LastIndexByte(lower, '1');
    assert one == |lower[..one]| == 3;
    CharsOfDigits(lower[4..]);
    DigitsUnique(data);
    var bs := ConvertBits(data).value;
    LowerIsForm(lower, bs);
    UpperOfLower(clean);
    UpperForm(bs);
  }

  lemma UpperForm(bs: seq<byte>)
    ensures Form(bs, true) == ToUpper(Form(bs, false))
  {
  }

  // ---------- cutting the form into pieces ----------

  lemma {:induction false} SplitPlain(s: string, rest: string)
    requires '+' !in s
    ensures Split(s + "+" + rest) == [s] + Split(rest)
    ensures Split(s) == [s]
  {
    if s == "" {
      assert "" + "+" + rest == "+" + rest;
      assert ("+" + rest)[1..] == rest;
    } else {
      SplitPlain(s[1..], rest);
      assert (s + "+" + rest)[1..] == s[1..] + "+" + rest;
      assert s == [s[0]] + s[1..];
      assert ([s[1..]] + Split(rest))[1..] == Split(rest);
    }
  }

  lemma {:induction false} SplitJoin(parts: seq<string>)
    requires parts != [] && forall i :: 0 <= i < |parts| ==> '+' !in parts[i]
    ensures Split(Join(parts)) == parts
  {
    if |parts| == 1 {
      SplitPlain(parts[0], "");
    } else {
      SplitJoin(parts[1..]);
      SplitPlain(parts[0], Join(parts[1..]));
    }
  }

  lemma {:induction false} TrimLeftPiece(before: string, text: string)
    requires Spaces(before) && (text != "" ==> !IsSpace(text[0]))
    ensures TrimLeft(before + text) == text
  {
    if before == "" {
      assert before + text == text;
    } else {
      assert (before + text)[1..] == before[1..] + text;
      TrimLeftPiece(before[1..], text);
    }
  }

  lemma {:induction false} TrimRightPiece(text: string, after: string)
    requires Spaces(after) && (text != "" ==> !IsSpace(text[|text| - 1]))
    ensures TrimRight(text + after) == text
  {
    if after == "" {
      assert text + after == text;
    } else {
      assert (text + after)[..|text + after| - 1] == text + after[..|after| - 1];
      TrimRightPiece(text, after[..|after| - 1]);
    }
  }

  lemma {:induction false} TrimAllSpace(s: string)
    requires Spaces(s)
    ensures TrimLeft(s) == ""
  {
    if s != "" {
      TrimAllSpace(s[1..]);
    }
  }

  /** Trimming leaves the text of a piece. */
  lemma TrimPiece(p: Piece)
    requires Spaces(p.before) && Spaces(p.after)
    requires forall i :: 0 <= i < |p.text| ==> !IsSpace(p.text[i])
    ensures TrimSpace(p.Whole()) == p.text
  {
    if p.text == "" {
      assert p.Whole() == p.before + p.after;
      TrimAllSpace(p.before + p.after);
    } else {
      assert p.Whole() == p.before + (p.text + p.after);
      TrimLeftPiece(p.before, p.text + p.after);
      TrimRightPiece(p.text, p.after);
    }
  }

  /** White space around visible text without "+". */
  predicate Fine(p: Piece) {
    && Spaces(p.before) && Spaces(p.after) && AllASCII(p.text)
    && forall i :: 0 <= i < |p.text| ==> !IsSpace(p.text[i]) && p.text[i] != '+'
  }

  lemma {:induction false} StripPieces(pieces: seq<Piece>)
    requires forall i :: 0 <= i < |pieces| ==> Fine(pieces[i])
    ensures Strip(Wholes(pieces)) ==
            if exists i :: 0 <= i < |pieces| && pieces[i].Whole() == "" then Err(IncorrectSplit) else Ok(Texts(pieces))
  {
    hide TrimSpace, AllASCII;
    if pieces != [] {
      StripPieces(pieces[1..]);
      assert Wholes(pieces)[1..] == Wholes(pieces[1..]);
      TrimPiece(pieces[0]);
      assert forall i :: 0 < i < |pieces| ==> pieces[i] == pieces[1..][i - 1];
      if i :| 0 <= i < |pieces[1..]| && pieces[1..][i].Whole() == "" {
        assert pieces[i + 1].Whole() == "";
      }
    }
  }

  /** The text of each piece lies somewhere in the whole text. */
  lemma {:induction false} TextWithin(pieces: seq<Piece>, i: nat, k: nat)
    requires i < |pieces| && k < |pieces[i].text|
    ensures pieces[i].text[k] in Texts(pieces)
  {
    if i > 0 {
      TextWithin(pieces[1..], i - 1, k);
    }
  }

  lemma FormPieces(bs: seq<byte>, upper: bool, pieces: seq<Piece>)
    requires Texts(pieces) == Form(bs, upper)
    requires forall i :: 0 <= i < |pieces| ==> Spaces(pieces[i].before) && Spaces(pieces[i].after)
    ensures forall i :: 0 <= i < |pieces| ==> Fine(pieces[i]) && '+' !in pieces[i].Whole()
  {
    CasedForm(bs, upper);
    hide Form, Texts;
    forall i | 0 <= i < |pieces| ensures Fine(pieces[i]) && '+' !in pieces[i].Whole() {
      forall k | 0 <= k < |pieces[i].text|
        ensures IsASCII(pieces[i].text[k]) && !IsSpace(pieces[i].text[k]) && pieces[i].text[k] != '+'
      {
        TextWithin(pieces, i, k);
        var at :| 0 <= at < |Form(bs, upper)| && Form(bs, upper)[at] == pieces[i].text[k];
      }
    }
  }

  /**
   * The form of a byte string, in either case, cut anywhere, with any white space around the
   * pieces, reads back to those bytes if there are at least four of them and no piece is left
   * with nothing at all; and in no other case. A piece of white space alone does no harm.
   */
  lemma CutFormReads(bs: seq<byte>, upper: bool, pieces: seq<Piece>)
    requires pieces != [] && Texts(pieces) == Form(bs, upper)
    requires forall i :: 0 <= i < |pieces| ==> Spaces(pieces[i].before) && Spaces(pieces[i].after)
    ensures BytesOf(Join(Wholes(pieces))).Ok? <==> |bs| >= 4 && forall i :: 0 <= i < |pieces| ==>
            pieces[i].Whole() != ""
    ensures BytesOf(Join(Wholes(pieces))).Ok? ==> BytesOf(Join(Wholes(pieces))).value == bs
  {
    hide Form, Texts, Strip, Bech32Of, ConvertBits, Digits, Join, Split;
    FormPieces(bs, upper, pieces);
    SplitJoin(Wholes(pieces));
    StripPieces(pieces);
    FormDecodes(bs, upper);
    ConvertBitsOfDigits(bs);
  }

  /** Whatever is accepted is, once stripped, the form of the bytes it yields, in one case. */
  lemma AcceptedIsForm(offer: string)
    requires BytesOf(offer).Ok?
    ensures |BytesOf(offer).value| >= 4
    ensures var clean := Strip(Split(offer));
            clean == Ok(Form(BytesOf(offer).value, false)) || clean == Ok(Form(BytesOf(offer).value, true))
  {
    hide Form, Strip, Split, ConvertBits;
    var bs := BytesOf(offer).value;
    DecodedForm(Strip(Split(offer)).value);
    FormDecodes(bs, false);
    FormDecodes(bs, true);
  }

  lemma {:induction false} JoinSplit(s: string)
    ensures Join(Split(s)) == s
    ensures forall i :: 0 <= i < |Split(s)| ==> '+' !in Split(s)[i]
  {
    if s != "" {
      var rest := Split(s[1..]);
      JoinSplit(s[1..]);
      assert s == [s[0]] + s[1..];
      if s[0] == '+' {
        assert ([""] + rest)[1..] == rest;
      } else {
        var parts := [[s[0]] + rest[0]] + rest[1..];
        assert parts[1..] == rest[1..];
        assert |rest| == 1 ==> Join(rest) == rest[0];
        assert |rest| > 1 ==> Join(parts) == [s[0]] + (rest[0] + "+" + Join(rest[1..]));
      }
    }
  }

  lemma {:induction false} TrimLeftCuts(s: string) returns (before: string)
    ensures s == before + TrimLeft(s) && Spaces(before)
  {
    if s != "" && IsSpace(s[0]) {
      before := TrimLeftCuts(s[1..]);
      before := [s[0]] + before;
    } else {
      before := "";
    }
  }

  lemma {:induction false} TrimRightCuts(s: string) returns (after: string)
    ensures s == TrimRight(s) + after && Spaces(after)
  {
    if s != "" && IsSpace(s[|s| - 1]) {
      after := TrimRightCuts(s[..|s| - 1]);
      after := after + [s[|s| - 1]];
    } else {
      after := "";
    }
  }

  /** Every part is its text with white space around it. */
  lemma {:induction false} PartsArePieces(parts: seq<string>) returns (pieces: seq<Piece>)
    requires Strip(parts).Ok?
    ensures Wholes(pieces) == parts && Texts(pieces) == Strip(parts).value
    ensures forall i :: 0 <= i < |pieces| ==>
              Spaces(pieces[i].before) && Spaces(pieces[i].after) && pieces[i].Whole() != ""
  {
    hide IsSpace, TrimLeft, TrimRight, AllASCII;
    if parts == [] {
      pieces := [];
    } else {
      var before := TrimLeftCuts(parts[0]);
      var after := TrimRightCuts(TrimLeft(parts[0]));
      var piece := Piece(before, TrimSpace(parts[0]), after);
      assert piece.Whole() == parts[0];
      var rest := PartsArePieces(parts[1..]);
      pieces := [piece] + rest;
      assert pieces[1..] == rest;
      forall i | 0 <= i < |pieces| ensures Wholes(pieces)[i] == parts[i] {
        if i > 0 {
          assert Wholes(rest)[i - 1] == parts[1..][i - 1];
        }
      }
    }
  }

  /**
   * Whatever is accepted was the form of the bytes it yields, in one case, cut into pieces none of which
   * is empty, with white space around them.
   */
  lemma AcceptedIsCutForm(offer: string) returns (pieces: seq<Piece>, upper: bool)
    requires BytesOf(offer).Ok?
    ensures pieces != [] && Join(Wholes(pieces)) == offer && Texts(pieces) == Form(BytesOf(offer).value, upper)
    ensures forall i :: 0 <= i < |pieces| ==>
              Spaces(pieces[i].before) && Spaces(pieces[i].after) && pieces[i].Whole() != ""
  {
    hide Strip, Split, Form, Bech32Of, ConvertBits, Join, Wholes, Texts, Spaces;
    AcceptedIsForm(offer);
    JoinSplit(offer);
    pieces := PartsArePieces(Split(offer));
    upper := Texts(pieces) != Form(BytesOf(offer).value, false);
  }

  // ---------- what is accepted, spelled out ----------

  /** The characters that Unicode counts as white space. */
  lemma WhiteSpaceSpelled(c: char)
    ensures IsSpace(c) <==>
            c as int in [9, 10, 11, 12, 13, 32, 133, 160, 5760, 8192, 8193, 8194, 8195, 8196, 8197, 8198, 8199, 8200,
                         8201, 8202, 8232, 8233, 8239, 8287, 12288]
  {
  }

  /** The form of a byte string: "lno1" and five bits a character, zeros filling up the last one. */
  lemma FormSpelled(bs: seq<byte>)
    ensures var s, digits := Form(bs, false), Digits(bs);
            && |s| == 4 + |digits| && 8 * |bs| <= 5 * |digits| < 8 * |bs| + 5
            && s[0] == 'l' && s[1] == 'n' && s[2] == 'o' && s[3] == '1'
            && (forall i :: 0 <= i < |digits| ==> s[4 + i] == "qpzry9x8gf2tvdw0s3jn54khce6mua7l"[digits[i]])
            && FromDigits(digits) == FromBE(bs) * Pow2(5 * |digits| - 8 * |bs|)
    ensures Form(bs, true) == Capitals(Form(bs, false))
  {
    hide Digits, CHARSET, Form, FromDigits, FromBE, Pow2;
    LowerForm(bs);
    UpperForm(bs);
    CountDigits(|bs|);
    DigitsValue(bs);
    CharsetSpelled();
    var s := Form(bs, false);
    assert s[0] == s[..3][0] && s[1] == s[..3][1] && s[2] == s[..3][2];
    assert forall i :: 0 <= i < |Digits(bs)| ==> s[4 + i] == s[4..][i];
  }

  /** Small letters become the capitals thirty-two characters before them. */
  function Capitals(s: string): string {
    seq(|s|, i requires 0 <= i < |s| => if 'a' <= s[i] <= 'z' then s[i] - 32 as char else s[i])
  }

  lemma CharsetSpelled()
    ensures CHARSET == "qpzry9x8gf2tvdw0s3jn54khce6mua7l"
  {
  }

  lemma DigitsValue(bs: seq<byte>)
    ensures FromDigits(Digits(bs)) == FromBE(bs) * Pow2(Padding(|bs|))
  {
    hide ToDigits, FromDigits, FromBE, Pow2, Padding, DigitCount;
    PaddedBelow(bs);
    FromToDigits(FromBE(bs) * Pow2(Padding(|bs|)), DigitCount(|bs|));
  }

  predicate IsLast(s: string, c: char, at: int) {
    -1 <= at < |s| && (at >= 0 ==> s[at] == c) && forall k :: at < k < |s| ==> s[k] != c
  }

  predicate Visible(s: string) {
    forall i :: 0 <= i < |s| ==> 33 <= s[i] as int <= 126
  }

  predicate Mixed(s: string) {
    && (exists i :: 0 <= i < |s| && 'a' <= s[i] <= 'z')
    && (exists i :: 0 <= i < |s| && 'A' <= s[i] <= 'Z')
  }

  /** A character of the set, or its capital. */
  predicate Known(c: char) {
    var small := if 'A' <= c <= 'Z' then c + 32 as char else c;
    small in "qpzry9x8gf2tvdw0s3jn54khce6mua7l"
  }

  /** Why a string without joins is refused, in the order of the checks; `one` is where its last "1" is. */
  lemma RefusedExactly(s: string, one: int)
    requires IsLast(s, '1', one)
    ensures if |s| < 8 then Bech32Of(s) == Err(BadLength)
            else if !Visible(s) then Bech32Of(s) == Err(BadCharacter)
            else if Mixed(s) then Bech32Of(s) == Err(MixedCase)
            else if one < 1 || one > |s| - 7 then Bech32Of(s) == Err(BadSeparator)
            else if exists i :: one < i < |s| && !Known(s[i]) then Bech32Of(s) == Err(NotInCharset)
            else Bech32Of(s).Ok? && |Bech32Of(s).value.1| == |s| - one - 1
  {
    hide DigitsOf, Known, ToLower, ToUpper, Visible, AllASCII, Mixed, LastIndexByte;
    CasesApart(s);
    VisibleIsASCII(s);
    LastOne(s, one);
    if 1 <= one <= |s| - 7 {
      var data := s[one + 1..];
      DigitsKnown(data);
      LowerTail(s, one + 1);
      assert forall i :: 0 <= i < |data| ==> data[i] == s[one + 1 + i];
      assert forall i :: one < i < |s| ==> s[i] == data[i - one - 1];
    }
  }

  lemma VisibleIsASCII(s: string)
    ensures AllASCII(s) <==> Visible(s)
  {
  }

  lemma LowerTail(s: string, k: nat)
    requires k <= |s|
    ensures ToLower(s)[k..] == ToLower(s[k..])
  {
  }

  lemma LastOne(s: string, one: int)
    requires IsLast(s, '1', one)
    ensures LastIndexByte(ToLower(s), '1') == one
  {
    hide LastIndexByte;
    var at, lower := LastIndexByte(ToLower(s), '1'), ToLower(s);
    assert forall k :: 0 <= k < |s| ==> (lower[k] == '1' <==> s[k] == '1');
  }

  lemma CasesApart(s: string)
    ensures s != ToLower(s) && s != ToUpper(s) <==> Mixed(s)
  {
    if i :| 0 <= i < |s| && 'A' <= s[i] <= 'Z' {
      assert ToLower(s)[i] != s[i];
    }
    if i :| 0 <= i < |s| && 'a' <= s[i] <= 'z' {
      assert ToUpper(s)[i] != s[i];
    }
  }

  lemma {:induction false} DigitsKnown(data: string)
    ensures if forall i :: 0 <= i < |data| ==> Known(data[i]) then
              DigitsOf(ToLower(data)).Ok? && |DigitsOf(ToLower(data)).value| == |data|
            else DigitsOf(ToLower(data)) == Err(NotInCharset)
  {
    hide Known, IndexByte, CHARSET;
    if data != "" {
      var n := |data| - 1;
      DigitsKnown(data[..n]);
      assert ToLower(data)[..n] == ToLower(data[..n]);
      LetterKnown(data[n]);
      if !Known(data[n]) {
        DigitsOfFails(ToLower(data), n);
      }
    }
  }

  lemma LetterKnown(c: char)
    ensures IndexByte(CHARSET, Lower(c)) >= 0 <==> Known(c)
  {
    hide IndexByte;
  }

  lemma FourBytesValue()
    ensures FromBE([0, 1, 2, 3]) == 66051
  {
    assert [0, 1, 2, 3][..3] == [0, 1, 2] && [0, 1, 2][..2] == [0, 1] && [0, 1][..1] == [0] && [0][..0] == [];
  }

  lemma NextDigit(n: nat, width: nat)
    ensures ToDigits(n, width + 1) == ToDigits(n / 32, width) + [n % 32]
  {
  }

  lemma SevenDigits()
    ensures ToDigits(528408, 7) == [0, 0, 0, 16, 4, 0, 24]
  {
    hide ToDigits;
    assert ToDigits(0, 0) == [];
    NextDigit(0, 0);
    NextDigit(0, 1);
    NextDigit(0, 2);
    NextDigit(16, 3);
    NextDigit(516, 4);
    NextDigit(16512, 5);
    NextDigit(528408, 6);
  }

  /** Four bytes as a string. */
  lemma FourBytesSpelled()
    ensures Form([0, 1, 2, 3], false) == "lno1qqqsyqc"
  {
    FourBytesValue();
    SmallPowers();
    SevenDigits();
    hide FromBE, ToDigits, Pow2;
    assert Digits([0, 1, 2, 3]) == [0, 0, 0, 16, 4, 0, 24];
    assert Chars([0, 0, 0, 16, 4, 0, 24]) == "qqqsyqc";
  }
}
