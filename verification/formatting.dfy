/**
 The pure string helpers of the control plane (main.js): chat-id
 normalisation for outbound messages, the naming of stored attachments,
 and the reshuffle that turns the locale's date rendering into the
 timestamp carried by message events.
 */
module Formatting {
  import opened Common
  import opened Strings

  /** Suffix that marks an addressed individual chat. */
  const ChatSuffix: string := "@c.us"

  /** What a JavaScript template literal renders for a missing array slot. */
  const Undefined: string := "undefined"

  /** Extension used when the media type has no usable subtype. */
  const DefaultExtension: string := "bin"

  /** Web path under which stored attachments are served. */
  const ImagesRoute: string := "/images/"

  /** `number.includes("@c.us") ? number : number + "@c.us"`: the chat id
      always names a chat, and extends the number it was given. */
  function ChatId(number: string): (chatId: string)
    ensures Includes(chatId, ChatSuffix)
    ensures number <= chatId
    ensures chatId == number || !Includes(number, ChatSuffix)
  {
    if Includes(number, ChatSuffix) then number
    else
      var chatId := number + ChatSuffix;
      assert chatId[|number|..|number| + |ChatSuffix|] == ChatSuffix;
      IncludesOccurrence(chatId, ChatSuffix, |number|);
      chatId
  }

  /** Normalising twice is normalising once. */
  lemma ChatIdIdempotent(number: string)
    ensures ChatId(ChatId(number)) == ChatId(number)
  {
  }

  /** A bare number is addressed by appending the suffix; a number that
      already names a chat is left as it is. */
  lemma ChatIdCases(number: string)
    ensures Includes(number, ChatSuffix) <==> ChatId(number) == number
    ensures !Includes(number, ChatSuffix) <==> ChatId(number) == number + ChatSuffix
  {
    if !Includes(number, ChatSuffix) {
      assert |number + ChatSuffix| != |number|;
    }
  }

  /** The `k`-th element of an array, or what a template literal prints
      for a missing one. */
  function Nth(parts: seq<string>, k: nat): string {
    if k < |parts| then parts[k] else Undefined
  }

  /** `mimetype.split('/')[1] || 'bin'`. */
  function Extension(mimetype: string): (ext: string)
    ensures ext != ""
    ensures Free(ext, '/')
  {
    var parts := Split(mimetype, "/");
    if |parts| > 1 && parts[1] != "" then
      SplitPiecesFree(mimetype, "/", 1);
      parts[1]
    else DefaultExtension
  }

  /** For a media type `type/subtype[/...]` the extension is the subtype,
      or the default when the subtype is empty. */
  lemma ExtensionOfMediaType(mediaType: string, subtype: string, rest: string)
    requires Free(mediaType, '/') && Free(subtype, '/')
    requires rest == "" || rest[0] == '/'
    ensures Extension(mediaType + "/" + subtype + rest)
            == if subtype == "" then DefaultExtension else subtype
  {
    var tail := subtype + rest;
    assert mediaType + "/" + subtype + rest == mediaType + "/" + tail;
    SplitAfter(mediaType, "/", tail);
    FirstPiece(subtype, rest);
    var parts := Split(mediaType + "/" + tail, "/");
    assert parts == [mediaType] + Split(tail, "/");
    assert parts[1] == subtype;
  }

  /** The first piece of `subtype[/...]` split at '/' is the subtype. */
  lemma FirstPiece(subtype: string, rest: string)
    requires Free(subtype, '/')
    requires rest == "" || rest[0] == '/'
    ensures Split(subtype + rest, "/")[0] == subtype
  {
    if rest == "" {
      assert subtype + rest == subtype;
      SplitFree(subtype, "/");
    } else {
      assert subtype + rest == subtype + "/" + rest[1..];
      SplitAfter(subtype, "/", rest[1..]);
    }
  }

  /** A media type without a '/' falls back to the default extension. */
  lemma ExtensionWithoutSubtype(mimetype: string)
    requires Free(mimetype, '/')
    ensures Extension(mimetype) == DefaultExtension
  {
    SplitFree(mimetype, "/");
  }

  /** Decimal digit for `d < 10`. */
  function Digit(d: nat): (c: char)
    requires d < 10
    ensures '0' <= c <= '9'
  {
    ('0' as int + d) as char
  }

  /** All characters are decimal digits. */
  predicate IsDecimal(s: string) {
    forall i :: 0 <= i < |s| ==> '0' <= s[i] <= '9'
  }

  /** `String(n)` for a non-negative integer, as a template literal renders
      `Date.now()`. */
  function Decimal(n: nat): (s: string)
    ensures |s| >= 1 && IsDecimal(s)
    ensures s[0] == '0' ==> n == 0
  {
    if n < 10 then [Digit(n)]
    else
      var s := Decimal(n / 10) + [Digit(n % 10)];
      assert s[0] == Decimal(n / 10)[0];
      s
  }

  /** Reads a decimal string back; the reference meaning of `Decimal`. */
  function ParseDecimal(s: string): nat
    requires IsDecimal(s)
  {
    if s == [] then 0
    else 10 * ParseDecimal(s[..|s| - 1]) + (s[|s| - 1] as int - '0' as int)
  }

  /** The rendered timestamp denotes the millisecond count it came from. */
  lemma {:induction false} DecimalRoundTrip(n: nat)
    ensures ParseDecimal(Decimal(n)) == n
  {
    var s := Decimal(n);
    if n >= 10 {
      DecimalRoundTrip(n / 10);
      assert s[..|s| - 1] == Decimal(n / 10);
    }
  }

  /** A digit string that does not start with '0' denotes a positive
      number. */
  lemma {:induction false} LeadingDigitPositive(s: string)
    requires |s| >= 1 && IsDecimal(s) && s[0] != '0'
    ensures ParseDecimal(s) >= 1
    decreases |s|
  {
    if |s| > 1 {
      var p := s[..|s| - 1];
      assert p[0] == s[0];
      LeadingDigitPositive(p);
    }
  }

  /** `Decimal` is the canonical rendering: every digit string without a
      leading zero is the rendering of the number it denotes, so together
      with `DecimalRoundTrip` rendering and reading are inverse bijections. */
  lemma {:induction false} DecimalCanonical(s: string)
    requires |s| >= 1 && IsDecimal(s) && (s[0] == '0' ==> |s| == 1)
    ensures Decimal(ParseDecimal(s)) == s
    decreases |s|
  {
    var d := s[|s| - 1] as int - '0' as int;
    if |s| == 1 {
      assert s[..0] == [];
      assert ParseDecimal(s) == d;
      assert Digit(d) == s[0];
    } else {
      var p := s[..|s| - 1];
      assert p[0] == s[0];
      DecimalCanonical(p);
      LeadingDigitPositive(p);
      var n := ParseDecimal(s);
      assert n == 10 * ParseDecimal(p) + d;
      assert n / 10 == ParseDecimal(p) && n % 10 == d;
      assert Digit(d) == s[|s| - 1];
      assert s == p + [s[|s| - 1]];
    }
  }

  /** `file_${Date.now()}.${extension}`. */
  function AttachmentName(nowMs: nat, ext: string): (name: string)
    requires ext != "" && Free(ext, '/')
    ensures Free(name, '/')
    ensures |name| >= 7 + |ext| && name[..5] == "file_" && name[|name| - |ext| - 1..] == "." + ext
    ensures |name| >= 7 + |ext| && IsDecimal(name[5..|name| - |ext| - 1])
    ensures |name| >= 7 + |ext| && ParseDecimal(name[5..|name| - |ext| - 1]) == nowMs
    ensures |name| >= 7 + |ext| && (name[5] == '0' ==> name[5..|name| - |ext| - 1] == "0")
  {
    var stamp := Decimal(nowMs);
    var name := "file_" + stamp + "." + ext;
    assert name[5..|name| - |ext| - 1] == stamp;
    assert name[|name| - |ext| - 1..] == "." + ext;
    DecimalRoundTrip(nowMs);
    name
  }

  /** Text of the attachment announcement up to the opening quote of the
      link target, and from its closing quote on. */
  const LinkOpen: string := "📁 Archivo recibido: <a href="
  const LinkClose: string := " download>Descargar</a>"

  /** The body of the event announcing a stored attachment: an HTML link to
      `/images/<name>`. When the name contains no double quote, the quoted
      link target reads back as exactly `/images/<name>`. */
  function AttachmentLink(fileName: string): (link: string)
    ensures Free(fileName, '"') ==> |Split(link, "\"")| >= 3 && Split(link, "\"")[1] == ImagesRoute + fileName
  {
    var target := ImagesRoute + fileName;
    var link := LinkOpen + "\"" + target + "\"" + LinkClose;
    if Free(fileName, '"') then
      assert Free(target, '"');
      assert link == LinkOpen + "\"" + (target + "\"" + LinkClose);
      SplitAfter(LinkOpen, "\"", target + "\"" + LinkClose);
      SplitAfter(target, "\"", LinkClose);
      link
    else link
  }

  /** The reshuffle of `formatLocalDate`: split the locale rendering at
      the first ", " into date and time, split the date at '/', and
      reassemble as `day-month-year time`; missing parts print as
      "undefined". */
  function FormatLocalDate(localeText: string): (timestamp: string)
    ensures var halves := Split(localeText, ", ");
            var fields := Split(halves[0], "/");
            var date := Nth(fields, 0) + "-" + Nth(fields, 1) + "-" + Nth(fields, 2);
            timestamp == date + " " + Nth(halves, 1) && Free(date, '/')
  {
    var halves := Split(localeText, ", ");
    var dateParts := Split(halves[0], "/");
    FieldFree(halves[0], 0);
    FieldFree(halves[0], 1);
    FieldFree(halves[0], 2);
    var date := Nth(dateParts, 0) + "-" + Nth(dateParts, 1) + "-" + Nth(dateParts, 2);
    assert Free(date, '/');
    date + " " + Nth(halves, 1)
  }

  /** A '/'-separated field of a date rendering, present or not, contains
      no '/'. */
  lemma FieldFree(date: string, k: nat)
    ensures Free(Nth(Split(date, "/"), k), '/')
  {
    if k < |Split(date, "/")| {
      SplitPiecesFree(date, "/", k);
    }
  }

  /** A rendering "D/M/Y, T" becomes "D-M-Y T". */
  lemma FormatLocalDateReshuffles(day: string, month: string, year: string, time: string)
    requires Free(day, '/') && Free(month, '/') && Free(year, '/')
    requires Free(day, ',') && Free(month, ',') && Free(year, ',') && Free(time, ',')
    ensures FormatLocalDate(day + "/" + month + "/" + year + ", " + time)
            == day + "-" + month + "-" + year + " " + time
  {
    var date := day + "/" + month + "/" + year;
    SplitDateTime(date, time);
    SplitDate(day, month, year);
  }

  /** The first ", " separates the date rendering from the time. */
  lemma SplitDateTime(date: string, time: string)
    requires Free(date, ',') && Free(time, ',')
    ensures Split(date + ", " + time, ", ") == [date, time]
  {
    SplitAfter(date, ", ", time);
    SplitFree(time, ", ");
  }

  /** "D/M/Y" splits into its three fields. */
  lemma SplitDate(day: string, month: string, year: string)
    requires Free(day, '/') && Free(month, '/') && Free(year, '/')
    ensures Split(day + "/" + month + "/" + year, "/") == [day, month, year]
  {
    SplitAfter(day, "/", month + "/" + year);
    assert day + "/" + month + "/" + year == day + "/" + (month + "/" + year);
    SplitAfter(month, "/", year);
    SplitFree(year, "/");
  }

  /** A rendering without ", " has no time part, and its missing pieces
      print as "undefined". */
  lemma FormatLocalDateWithoutTime(day: string)
    requires Free(day, '/') && Free(day, ',')
    ensures FormatLocalDate(day) == day + "-" + Undefined + "-" + Undefined + " " + Undefined
  {
    SplitFree(day, ", ");
    SplitFree(day, "/");
    assert Split(Split(day, ", ")[0], "/") == [day];
  }
}
