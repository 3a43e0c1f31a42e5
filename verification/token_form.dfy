/**
Editing a token. The form shows a mask and a formatted date; saving takes the mask to mean "keep the token" and parses
the date back. Text is bytes, and calendar dates are validated fields in UTC.
*/
module TokenForm {
  import opened Wrappers
  import opened Decimal

  // ----- The mask -----

  const MASK := "****"

  function MaskToken(s: string): string {
    if |s| <= 8 then MASK else s[..4] + MASK + s[|s| - 4..]
  }

  predicate MaskAt(s: string, i: nat) {
    i <= |s| - 4 && s[i..i + 4] == MASK
  }

  predicate HasMask(s: string) {
    exists i: nat | i <= |s| - 4 :: MaskAt(s, i)
  }

  method IsMasked(s: string) returns (b: bool)
    ensures b <==> HasMask(s)
  {
    var i := 0;
    while i + 3 < |s|
      invariant 0 <= i && forall k: nat :: k < i ==> !MaskAt(s, k)
    {
      assert s[i..i + 4] == [s[i], s[i + 1], s[i + 2], s[i + 3]];
      if s[i] == '*' && s[i + 1] == '*' && s[i + 2] == '*' && s[i + 3] == '*' {
        assert MaskAt(s, i);
        return true;
      }
      i := i + 1;
    }
    return false;
  }

  lemma MaskIsMasked(s: string)
    ensures MaskToken(s) != "" && HasMask(MaskToken(s))
  {
    var i := if |s| <= 8 then 0 else 4;
    assert MaskAt(MaskToken(s), i);
  }

  /** A short token shows as four asterisks, a longer one as four between its first and its last four characters. */
  lemma MaskShows(s: string)
    ensures |s| <= 8 ==> MaskToken(s) == "****"
    ensures |s| > 8 ==>
      && |MaskToken(s)| == 12 && MaskToken(s)[4..8] == "****"
      && MaskToken(s)[..4] == s[..4] && MaskToken(s)[8..] == s[|s| - 4..]
  {
  }

  /** So nothing else of a token can be told from its mask, not even its length. */
  lemma MaskHides(s: string, t: string)
    ensures MaskToken(s) == MaskToken(t) <==>
      if |s| <= 8 || |t| <= 8 then |s| <= 8 && |t| <= 8 else s[..4] == t[..4] && s[|s| - 4..] == t[|t| - 4..]
  {
    MaskShows(s);
    MaskShows(t);
  }

  // ----- Dates -----

  const DAY := 86_400_000_000_000

  predicate IsLeap(year: int) {
    year % 4 == 0 && (year % 100 != 0 || year % 400 == 0)
  }

  function DaysIn(month: int, year: int): int
    requires 1 <= month <= 12
  {
    if month == 2 then if IsLeap(year) then 29 else 28
    else if month == 4 || month == 6 || month == 9 || month == 11 then 30
    else 31
  }

  lemma LeapYears(year: int)
    ensures IsLeap(year) <==> year % 400 == 0 || (year % 4 == 0 && year % 100 != 0)
  {
    if year % 400 == 0 {
      assert year == 4 * (100 * (year / 400));
    }
  }

  lemma DaysOfMonths(month: int, year: int)
    requires 1 <= month <= 12
    ensures DaysIn(month, year) == if month in {4, 6, 9, 11} then 30 else if month != 2 then 31
      else if year % 400 == 0 || (year % 4 == 0 && year % 100 != 0) then 29 else 28
  {
    LeapYears(year);
  }

  datatype Moment = Moment(year: int, month: int, day: int, time: int) {
    predicate Valid() {
      1 <= month <= 12 && 1 <= day <= DaysIn(month, year) && 0 <= time < DAY
    }
  }

  /** A time.Time in UTC: a calendar day and the nanoseconds since its midnight. */
  type Instant = m: Moment | m.Valid() witness Moment(1, 1, 1, 0)

  /** n in decimal, with zeros in front up to w digits; longer numbers are not cut. */
  function Pad(n: nat, w: nat): (s: string)
    ensures AllDigits(s) && |s| >= w && s != ""
  {
    if w <= 1 then Digits(n) else Pad(n / 10, w - 1) + [DigitChar(n % 10)]
  }

  const DASH := "\U{E2}\U{80}\U{94}"

  function FormatDate(e: Option<Instant>): string {
    if e.None? then DASH
    else
      var t := e.value;
      (if t.year < 0 then "-" + Pad(-t.year, 4) else Pad(t.year, 4))
      + "-" + Pad(t.month, 2) + "-" + Pad(t.day, 2)
  }

  /** time.Parse with the layout 2006-01-02: four digits, two digits, two digits, in range, and nothing after. */
  function ParseDate(s: string): (e: Option<Instant>)
    ensures e.Some? ==> e.value.time == 0 && 0 <= e.value.year <= 9999
  {
    if |s| != 10 || !AllDigits(s[..4]) || s[4] != '-' || !AllDigits(s[5..7]) || s[7] != '-' || !AllDigits(s[8..])
    then None
    else
      var year, month, day := Value(s[..4]), Value(s[5..7]), Value(s[8..]);
      FourDigits(s[..4]);
      if !(1 <= month <= 12) || !(1 <= day <= DaysIn(month, year)) then None else Some(Moment(year, month, day, 0))
  }

  lemma FourDigits(s: string)
    requires AllDigits(s) && |s| == 4
    ensures Value(s) <= 9999
  {
    var a, b, c := s[..3], s[..2], s[..1];
    assert a[..2] == b && b[..1] == c && c[..0] == "";
    assert Value(c) == 10 * Value("") + DigitValue(c[0]) <= 9;
    assert Value(b) == 10 * Value(c) + DigitValue(b[1]) <= 99;
    assert Value(a) == 10 * Value(b) + DigitValue(a[2]) <= 999;
  }

  lemma ValueOfMore(s: string, d: nat)
    requires AllDigits(s) && d < 10
    ensures AllDigits(s + [DigitChar(d)]) && Value(s + [DigitChar(d)]) == 10 * Value(s) + d
  {
    assert (s + [DigitChar(d)])[..|s|] == s;
  }

  lemma {:induction false} PadKeepsValue(n: nat, w: nat)
    ensures Value(Pad(n, w)) == n
  {
    if w <= 1 {
      ValueOfDigits(n);
    } else {
      var front := Pad(n / 10, w - 1);
      PadKeepsValue(n / 10, w - 1);
      assert Pad(n, w) == front + [DigitChar(n % 10)];
      ValueOfMore(front, n % 10);
    }
  }

  function Power10(w: nat): nat {
    if w == 0 then 1 else 10 * Power10(w - 1)
  }

  /** Exactly w characters for numbers of up to w digits. */
  lemma {:induction false} PadLength(n: nat, w: nat)
    requires w >= 1
    ensures |Pad(n, w)| == w <==> n < Power10(w)
  {
    if w == 1 {
      assert Power10(1) == 10 * Power10(0);
    } else {
      PadLength(n / 10, w - 1);
    }
  }

  lemma Widths(n: nat)
    ensures |Pad(n, 4)| == 4 <==> n <= 9999
    ensures |Pad(n, 2)| == 2 <==> n <= 99
  {
    PadLength(n, 4);
    PadLength(n, 2);
    assert Power10(1) == 10 && Power10(2) == 100 && Power10(3) == 1000 && Power10(4) == 10000;
  }

  /** What a date survives: no date, or midnight in a year of at most four digits. */
  predicate Survives(e: Option<Instant>) {
    e.None? || (e.value.time == 0 && 0 <= e.value.year <= 9999)
  }

  lemma FormattedLength(t: Instant)
    requires t.year >= 0
    ensures var s := FormatDate(Some(t));
      && |s| == |Pad(t.year, 4)| + 6
      && (|s| == 10 ==>
          && s[..4] == Pad(t.year, 4) && s[4] == '-' && s[5..7] == Pad(t.month, 2) && s[7] == '-'
          && s[8..] == Pad(t.day, 2))
  {
    Widths(t.month);
    Widths(t.day);
  }

  /** The text of a date, read as year, month and day. */
  predicate ReadsAs(s: string, year: int, month: int, day: int) {
    && |s| == 10 && AllDigits(s[..4]) && s[4] == '-' && AllDigits(s[5..7]) && s[7] == '-' && AllDigits(s[8..])
    && Value(s[..4]) == year && Value(s[5..7]) == month && Value(s[8..]) == day
  }

  lemma FormatReads(t: Instant)
    requires 0 <= t.year <= 9999
    ensures ReadsAs(FormatDate(Some(t)), t.year, t.month, t.day)
  {
    FormattedLength(t);
    Widths(t.year);
    PadKeepsValue(t.year, 4);
    PadKeepsValue(t.month, 2);
    PadKeepsValue(t.day, 2);
  }

  lemma ParseOfFormat(t: Instant)
    ensures ParseDate(FormatDate(Some(t))) == if 0 <= t.year <= 9999 then Some(t.(time := 0)) else None
  {
    if t.year < 0 {
      assert FormatDate(Some(t))[0] == '-';
    } else {
      FormattedLength(t);
      Widths(t.year);
      if t.year <= 9999 {
        FormatReads(t);
      }
    }
  }

  /** A date comes back from the form as it was exactly when it is missing or a four-digit midnight. */
  lemma DateRoundTrip(e: Option<Instant>)
    ensures ParseDate(FormatDate(e)) == e <==> Survives(e)
  {
    if e.Some? {
      ParseOfFormat(e.value);
    }
  }

  lemma {:induction false} PadOfValue(s: string)
    requires s != "" && AllDigits(s)
    ensures Pad(Value(s), |s|) == s
  {
    var init, d := s[..|s| - 1], DigitValue(s[|s| - 1]);
    LastDigit(Value(init), d);
    assert s == init + [DigitChar(d)];
    if init == "" {
      assert Digits(d) == [DigitChar(d)];
    } else {
      PadOfValue(init);
    }
  }

  lemma LastDigit(n: nat, d: nat)
    requires d < 10
    ensures (10 * n + d) / 10 == n && (10 * n + d) % 10 == d
  {
  }

  /** A text parses exactly when it reads as a day of the calendar, and to midnight of that day. */
  lemma ParsesExactly(s: string, t: Instant)
    ensures ParseDate(s) == Some(t) <==> ReadsAs(s, t.year, t.month, t.day) && t.time == 0
  {
    if ReadsAs(s, t.year, t.month, t.day) {
      FourDigits(s[..4]);
    }
  }

  /** What parses is what formatting prints: a date that parses is shown again as it was typed, and any text, parsed,
      shown and parsed again, comes to the same. */
  lemma ParsedSurvives(s: string)
    ensures Survives(ParseDate(s)) && ParseDate(FormatDate(ParseDate(s))) == ParseDate(s)
    ensures ParseDate(s).Some? ==> FormatDate(ParseDate(s)) == s
  {
    DateRoundTrip(ParseDate(s));
    if ParseDate(s).Some? {
      PadOfValue(s[..4]);
      PadOfValue(s[5..7]);
      PadOfValue(s[8..]);
      assert s == s[..4] + "-" + s[5..7] + "-" + s[8..];
    }
  }

  // ----- Saving the form -----

  datatype TokenRow = TokenRow(name: string, ciphertext: string, expires: Option<Instant>, lastError: string,
    active: bool)

  datatype Form = Form(name: string, token: string, expires: string)

  datatype Reply = BadRequest | NotFound | ServerError | Saved

  /** Which of the store's calls fail. */
  datatype Faults = Faults(read: bool, write: bool, reread: bool)

  type Cipher = string -> Option<string>

  /** The token column to save, or the reply that gives up. */
  function TokenToSave(
      rows: map<string, TokenRow>, id: string, token: string, encrypt: Cipher, f: Faults): Result<string, Reply> {
    if token != "" && !HasMask(token) then
      if encrypt(token).Some? then Ok(encrypt(token).value) else Err(ServerError)
    else if f.read || id !in rows then Err(NotFound)
    else Ok(rows[id].ciphertext)
  }

  function Edited(row: TokenRow, form: Form, ciphertext: string): TokenRow {
    row.(name := form.name, ciphertext := ciphertext, expires := ParseDate(form.expires), lastError := "")
  }

  function AfterSave(
      rows: map<string, TokenRow>, id: string, form: Form, encrypt: Cipher, f: Faults): (Reply, map<string, TokenRow>) {
    if form.name == "" then (BadRequest, rows)
    else
      var token := TokenToSave(rows, id, form.token, encrypt, f);
      if token.Err? then (token.error, rows)
      else if f.write then (ServerError, rows)
      else if id !in rows then (ServerError, rows)
      else (if f.reread then ServerError else Saved, rows[id := Edited(rows[id], form, token.value)])
  }

  predicate StarsAt(s: string, i: nat) {
    i + 3 < |s| && s[i] == '*' && s[i + 1] == '*' && s[i + 2] == '*' && s[i + 3] == '*'
  }

  /** A token was typed, and what was typed is no mask. */
  ghost predicate Typed(token: string) {
    token != "" && forall i: nat :: !StarsAt(token, i)
  }

  /** The row as it is saved: the form's name and date, no error, and the encryption of what was typed or else the old
      token; the other rows as they were. */
  ghost predicate SavedAs(
      rows: map<string, TokenRow>, id: string, form: Form, encrypt: Cipher, after: map<string, TokenRow>) {
    && id in rows && after.Keys == rows.Keys && (forall k <- rows :: k != id ==> after[k] == rows[k])
    && after[id].name == form.name && after[id].expires == ParseDate(form.expires) && after[id].lastError == ""
    && after[id].active == rows[id].active
    && if Typed(form.token) then encrypt(form.token) == Some(after[id].ciphertext)
       else after[id].ciphertext == rows[id].ciphertext
  }

  /** What each reply means. */
  ghost predicate Replied(
      rows: map<string, TokenRow>, id: string, form: Form, encrypt: Cipher, f: Faults, reply: Reply,
      after: map<string, TokenRow>)
  {
    var due := if Typed(form.token) then encrypt(form.token).Some? else !f.read;
    && (reply == BadRequest <==> form.name == "")
    && (reply == NotFound <==> form.name != "" && !Typed(form.token) && (f.read || id !in rows))
    && (reply == Saved <==> form.name != "" && id in rows && due && !f.write && !f.reread)
    && if form.name != "" && id in rows && due && !f.write then SavedAs(rows, id, form, encrypt, after)
       else after == rows
  }

  lemma StarsMask(s: string, i: nat)
    ensures StarsAt(s, i) <==> MaskAt(s, i)
  {
    if i + 3 < |s| {
      assert s[i..i + 4] == [s[i], s[i + 1], s[i + 2], s[i + 3]];
    }
  }

  lemma SaveReplies(rows: map<string, TokenRow>, id: string, form: Form, encrypt: Cipher, f: Faults)
    ensures var (reply, after) := AfterSave(rows, id, form, encrypt, f);
      Replied(rows, id, form, encrypt, f, reply, after)
  {
    forall i: nat ensures StarsAt(form.token, i) <==> MaskAt(form.token, i) {
      StarsMask(form.token, i);
    }
  }

  class TokenTable {
    var rows: map<string, TokenRow>

    constructor ()
      ensures rows == map[]
    {
      rows := map[];
    }

    method GetToken(id: string, fails: bool) returns (row: Option<TokenRow>)
      ensures row == if fails || id !in rows then None else Some(rows[id])
    {
      row := if fails || id !in rows then None else Some(rows[id]);
    }

    /** The update also clears the token's last error, and touches nothing when the id is unknown. */
    method UpdateToken(
        id: string, name: string, ciphertext: string, expires: Option<Instant>, f: Faults)
      returns (row: Option<TokenRow>)
      modifies this
      ensures rows == if f.write || id !in old(rows) then old(rows)
        else old(rows)[id := old(rows)[id].(name := name, ciphertext := ciphertext, expires := expires,
          lastError := "")]
      ensures row == if f.write || f.reread || id !in rows then None else Some(rows[id])
    {
      if f.write {
        return None;
      }
      if id in rows {
        rows := rows[id := rows[id].(name := name, ciphertext := ciphertext, expires := expires, lastError := "")];
      }
      row := GetToken(id, f.reread);
    }

    method HandleTokenUpdate(id: string, form: Form, encrypt: Cipher, f: Faults) returns (reply: Reply)
      modifies this
      ensures (reply, rows) == AfterSave(old(rows), id, form, encrypt, f)
      ensures Replied(old(rows), id, form, encrypt, f, reply, rows)
    {
      SaveReplies(rows, id, form, encrypt, f);
      if form.name == "" {
        return BadRequest;
      }
      var ciphertext;
      var masked := IsMasked(form.token);
      if form.token != "" && !masked {
        var encrypted := encrypt(form.token);
        if encrypted.None? {
          return ServerError;
        }
        ciphertext := encrypted.value;
      } else {
        var existing := GetToken(id, f.read);
        if existing.None? {
          return NotFound;
        }
        ciphertext := existing.value.ciphertext;
      }
      var updated := UpdateToken(id, form.name, ciphertext, ParseDate(form.expires), f);
      if updated.None? {
        return ServerError;
      }
      reply := Saved;
    }
  }

  /** The edit form as it is shown: the decrypted token masked, or the stored text when it does not decrypt. A date
      field may send the dash of a missing date as nothing. */
  function EditForm(row: TokenRow, decrypt: Cipher, blank: bool): Form {
    var plain := decrypt(row.ciphertext);
    Form(row.name, MaskToken(if plain.Some? then plain.value else row.ciphertext),
      if row.expires.None? && blank then "" else FormatDate(row.expires))
  }

  /** The form shows the name, of the token or, if it does not decrypt, of what is stored, no more than a mask, and the
      day of its expiry. */
  lemma FormShows(row: TokenRow, decrypt: Cipher, blank: bool)
    ensures var form, text := EditForm(row, decrypt, blank),
                              if decrypt(row.ciphertext).Some? then decrypt(row.ciphertext).value else row.ciphertext;
      && form.name == row.name
      && form.token == (if |text| <= 8 then "****" else text[..4] + "****" + text[|text| - 4..])
      && (row.expires.Some? && 0 <= row.expires.value.year <= 9999 ==>
            ReadsAs(form.expires, row.expires.value.year, row.expires.value.month, row.expires.value.day))
      && (row.expires.None? ==> form.expires == (if blank then "" else "\U{E2}\U{80}\U{94}"))
  {
    if row.expires.Some? && 0 <= row.expires.value.year <= 9999 {
      FormatReads(row.expires.value);
    }
  }

  /** Saving the form untouched keeps the token whatever fails, and keeps the whole row exactly when there was no error
      to clear and the expiry is one that survives the form. */
  lemma UntouchedSave(rows: map<string, TokenRow>, id: string, decrypt: Cipher, encrypt: Cipher, blank: bool, f: Faults)
    requires id in rows && rows[id].name != ""
    ensures var row, (reply, after) := rows[id], AfterSave(rows, id, EditForm(rows[id], decrypt, blank), encrypt, f);
      && after.Keys == rows.Keys && after[id].ciphertext == row.ciphertext
      && (reply == Saved <==> !f.read && !f.write && !f.reread)
      && (reply == Saved ==> (after == rows <==> row.lastError == "" && Survives(row.expires)))
  {
    var row := rows[id];
    var form := EditForm(row, decrypt, blank);
    MaskIsMasked(if decrypt(row.ciphertext).Some? then decrypt(row.ciphertext).value else row.ciphertext);
    DateRoundTrip(row.expires);
    assert ParseDate(form.expires) == row.expires <==> Survives(row.expires);
    var edited := Edited(row, form, row.ciphertext);
    assert edited == row <==> row.lastError == "" && Survives(row.expires);
    assert rows[id := edited] == rows <==> edited == row by {
      assert rows[id := edited][id] == edited;
    }
  }

  /** A second untouched save of what the first one left changes nothing. */
  lemma SavingTwice(rows: map<string, TokenRow>, id: string, decrypt: Cipher, encrypt: Cipher, blank: bool, f: Faults)
    requires id in rows && rows[id].name != "" && !f.read && !f.write && !f.reread
    ensures var (_, once) := AfterSave(rows, id, EditForm(rows[id], decrypt, blank), encrypt, f);
      id in once && AfterSave(once, id, EditForm(once[id], decrypt, blank), encrypt, f) == (Saved, once)
  {
    UntouchedSave(rows, id, decrypt, encrypt, blank, f);
    var (_, once) := AfterSave(rows, id, EditForm(rows[id], decrypt, blank), encrypt, f);
    ParsedSurvives(EditForm(rows[id], decrypt, blank).expires);
    UntouchedSave(once, id, decrypt, encrypt, blank, f);
  }

  /** No save ever touches another token, and a token is replaced only by the encryption of what was typed. */
  lemma OnlyThatToken(rows: map<string, TokenRow>, id: string, form: Form, encrypt: Cipher, f: Faults)
    ensures var after := AfterSave(rows, id, form, encrypt, f).1;
      && after.Keys == rows.Keys && (forall k <- rows :: k != id ==> after[k] == rows[k])
      && (id in rows ==> after[id].active == rows[id].active)
      && (id in rows && after[id].ciphertext != rows[id].ciphertext ==>
            form.token != "" && !HasMask(form.token) && encrypt(form.token) == Some(after[id].ciphertext))
  {
  }
}
