/** The utility functions of lib/storage.ts: report ids, the report text template and the
    WhatsApp deep link. The clock and the random source are parameters. */
module StorageUtils {
  import opened Wrappers
  import opened Strings
  import opened Types
  import opened UriComponent

  // ---------------------------------------------------------------- report ids

  /** `String.prototype.substr(start, length)` for non-negative arguments. */
  function Substr(s: string, start: nat, length: nat): (r: string)
    ensures |r| == if start < |s| then (if |s| - start < length then |s| - start else length) else 0
    ensures |r| <= length
    ensures start + |r| <= |s| || r == []
    ensures forall i :: 0 <= i < |r| ==> r[i] == s[start + i]
  {
    var from := if start < |s| then start else |s|;
    var to := if from + length < |s| then from + length else |s|;
    s[from..to]
  }

  /** `generateId`: the clock reading `now` (`Date.now()`) in decimal, a dash, and characters
      2 to 10 of `random36`, the text of `Math.random().toString(36)`. */
  function GenerateId(now: nat, random36: string): (r: string)
    ensures var n := |NatToDecimal(now)|;
      && n + 1 <= |r| <= n + 10
      && AllDigits(r[..n]) && r[n] == '-'
      && (|random36| >= 11 ==> |r| == n + 10)
  {
    NatToDecimal(now) + "-" + Substr(random36, 2, 9)
  }

  /** The position of the first `c` in `s`, or `|s|` when there is none. */
  function FirstIndexOf(s: string, c: char): (k: nat)
    ensures k <= |s|
    ensures k < |s| ==> s[k] == c
    ensures forall i :: 0 <= i < k ==> s[i] != c
  {
    if s == [] || s[0] == c then 0 else 1 + FirstIndexOf(s[1..], c)
  }

  lemma FirstIndexOfIs(s: string, c: char, k: nat)
    requires k <= |s| && (k < |s| ==> s[k] == c)
    requires forall i :: 0 <= i < k ==> s[i] != c
    ensures FirstIndexOf(s, c) == k
  {
  }

  /** Splits an id at its first dash into the clock reading and the random suffix. */
  function ParseId(id: string): (r: Option<(nat, string)>)
  {
    var k := FirstIndexOf(id, '-');
    if k == |id| then None
    else match ParseDecimal(id[..k])
      case None => None
      case Some(t) => Some((t, id[k + 1..]))
  }

  /** An id gives back the clock reading it was made at and its random suffix, which is at most
      nine characters long. */
  lemma GenerateIdRoundTrip(now: nat, random36: string)
    ensures ParseId(GenerateId(now, random36)) == Some((now, Substr(random36, 2, 9)))
    ensures |GenerateId(now, random36)| <= |NatToDecimal(now)| + 10
  {
    var d := NatToDecimal(now);
    var id := GenerateId(now, random36);
    assert forall i :: 0 <= i < |d| ==> id[i] == d[i] && IsDigit(d[i]);
    assert id[|d|] == '-';
    FirstIndexOfIs(id, '-', |d|);
    assert id[..|d|] == d;
    assert id[|d| + 1..] == Substr(random36, 2, 9);
    DecimalRoundTrip(now);
  }

  /** Ids made at different times differ, whatever the random suffixes; ids made at the same
      time differ exactly when their suffixes do. */
  lemma GenerateIdInjective(t1: nat, r1: string, t2: nat, r2: string)
    requires GenerateId(t1, r1) == GenerateId(t2, r2)
    ensures t1 == t2 && Substr(r1, 2, 9) == Substr(r2, 2, 9)
  {
    GenerateIdRoundTrip(t1, r1);
    GenerateIdRoundTrip(t2, r2);
  }

  // ---------------------------------------------------------------- the report text

  const HEADER := "*ALCANCE SOL - REPORT*"
  const FOOTER := "_Enviado via Sol Conectividade App_"
  const NOT_PROVIDED := "N\U{E3}o informado"

  /** `contatoAlternativo || "Não informado"`: only the empty string is falsy. */
  function ContactShown(contato: string): (r: string)
    ensures r == contato <==> contato != ""
    ensures contato == "" ==> r == "N\U{E3}o informado"
  {
    if contato == "" then NOT_PROVIDED else contato
  }

  /** The eight lines of the report text: the header, a blank line, the four labelled fields
      (the contact with its fallback), a blank line and the footer. */
  function ReportLines(d: ReportFormData): (r: seq<string>)
    ensures |r| == 8
  {
    [HEADER, "",
     "*Nome:* " + d.nome,
     "*Motivo:* " + d.motivo,
     "*Contato alternativo:* " + ContactShown(d.contatoAlternativo),
     "*Mensagem:* " + d.mensagem,
     "", FOOTER]
  }

  /** Lines joined with line feeds. */
  function JoinLines(ls: seq<string>): (r: string)
    requires |ls| >= 1
  {
    if |ls| == 1 then ls[0] else ls[0] + "\n" + JoinLines(ls[1..])
  }

  /** `formatMessageContent`: the report lines joined by line feeds, which is the template
      literal of the source for any field contents, line feeds included. */
  function FormatMessageContent(d: ReportFormData): (r: string)
    ensures r == HEADER + "\n" + "\n"
      + ("*Nome:* " + d.nome) + "\n"
      + ("*Motivo:* " + d.motivo) + "\n"
      + ("*Contato alternativo:* " + ContactShown(d.contatoAlternativo)) + "\n"
      + ("*Mensagem:* " + d.mensagem) + "\n"
      + "\n" + FOOTER
  {
    JoinReportLines(d);
    JoinLines(ReportLines(d))
  }

  /** The eight report lines joined, written out: two of the lines are blank. */
  lemma JoinReportShape(a: string, c: string, d: string, e: string, f: string, h: string)
    ensures JoinLines([a, "", c, d, e, f, "", h])
      == a + "\n" + "\n" + c + "\n" + d + "\n" + e + "\n" + f + "\n" + "\n" + h
  {
    var nl := "\n";
    var t := [a, "", c, d, e, f, "", h];
    assert t[6..] == ["", h] && t[6..][1..] == [h];
    assert JoinLines(t[6..]) == "" + nl + h == nl + h;
    assert JoinLines(t[5..]) == f + nl + (nl + h);
    assert JoinLines(t[4..]) == e + nl + (f + nl + (nl + h));
    assert JoinLines(t[3..]) == d + nl + (e + nl + (f + nl + (nl + h)));
    assert JoinLines(t[2..]) == c + nl + (d + nl + (e + nl + (f + nl + (nl + h))));
    assert JoinLines(t[1..]) == "" + nl + (c + nl + (d + nl + (e + nl + (f + nl + (nl + h)))));
  }

  lemma JoinReportLines(d: ReportFormData)
    ensures JoinLines(ReportLines(d)) == HEADER + "\n" + "\n"
      + ("*Nome:* " + d.nome) + "\n"
      + ("*Motivo:* " + d.motivo) + "\n"
      + ("*Contato alternativo:* " + ContactShown(d.contatoAlternativo)) + "\n"
      + ("*Mensagem:* " + d.mensagem) + "\n"
      + "\n" + FOOTER
  {
    JoinReportShape(HEADER, "*Nome:* " + d.nome, "*Motivo:* " + d.motivo,
      "*Contato alternativo:* " + ContactShown(d.contatoAlternativo), "*Mensagem:* " + d.mensagem, FOOTER);
  }

  /** The text split at each line feed. */
  function Lines(s: string): (r: seq<string>)
    ensures |r| >= 1
    decreases |s|
  {
    var k := FirstIndexOf(s, '\n');
    if k == |s| then [s] else [s[..k]] + Lines(s[k + 1..])
  }

  predicate SingleLine(s: string)
  {
    '\n' !in s
  }

  lemma LinesCons(a: string, b: string)
    requires SingleLine(a)
    ensures Lines(a + "\n" + b) == [a] + Lines(b)
  {
    var s := a + "\n" + b;
    forall i | 0 <= i < |a| ensures s[i] != '\n' {
      assert s[i] == a[i];
    }
    FirstIndexOfIs(s, '\n', |a|);
    assert s[..|a|] == a && s[|a| + 1..] == b;
  }

  lemma LinesSingle(a: string)
    requires SingleLine(a)
    ensures Lines(a) == [a]
  {
    FirstIndexOfIs(a, '\n', |a|);
  }

  lemma {:induction false} LinesOfJoin(ls: seq<string>)
    requires |ls| >= 1
    requires forall i :: 0 <= i < |ls| ==> SingleLine(ls[i])
    ensures Lines(JoinLines(ls)) == ls
  {
    if |ls| == 1 {
      LinesSingle(ls[0]);
    } else {
      LinesOfJoin(ls[1..]);
      LinesCons(ls[0], JoinLines(ls[1..]));
    }
  }

  lemma ConcatSingleLine(x: string, y: string)
    requires SingleLine(x) && SingleLine(y)
    ensures SingleLine(x + y)
  {
  }

  /** When no field holds a line feed, splitting the report text at its line feeds gives back
      exactly the eight report lines, so each field can be read off its labelled line. */
  lemma FormatLines(d: ReportFormData)
    requires SingleLine(d.nome) && SingleLine(d.motivo)
    requires SingleLine(d.contatoAlternativo) && SingleLine(d.mensagem)
    ensures Lines(FormatMessageContent(d)) == ReportLines(d)
  {
    ReportLinesSingle(d);
    LinesOfJoin(ReportLines(d));
  }

  lemma FrameTextSingle()
    ensures SingleLine(HEADER) && SingleLine(FOOTER) && SingleLine(NOT_PROVIDED)
  {
  }

  lemma LabelTextSingle()
    ensures SingleLine("*Nome:* ") && SingleLine("*Motivo:* ")
    ensures SingleLine("*Contato alternativo:* ") && SingleLine("*Mensagem:* ")
  {
  }

  lemma ReportLinesSingle(d: ReportFormData)
    requires SingleLine(d.nome) && SingleLine(d.motivo)
    requires SingleLine(d.contatoAlternativo) && SingleLine(d.mensagem)
    ensures forall i :: 0 <= i < |ReportLines(d)| ==> SingleLine(ReportLines(d)[i])
  {
    FrameTextSingle();
    LabelTextSingle();
    ConcatSingleLine("*Nome:* ", d.nome);
    ConcatSingleLine("*Motivo:* ", d.motivo);
    ConcatSingleLine("*Contato alternativo:* ", ContactShown(d.contatoAlternativo));
    ConcatSingleLine("*Mensagem:* ", d.mensagem);
  }

  /** Reports whose fields hold no line feed render alike only when they agree on name, reason
      and message, and show the same contact. */
  lemma FormatInjective(d1: ReportFormData, d2: ReportFormData)
    requires SingleLine(d1.nome) && SingleLine(d1.motivo) && SingleLine(d1.contatoAlternativo) && SingleLine(d1.mensagem)
    requires SingleLine(d2.nome) && SingleLine(d2.motivo) && SingleLine(d2.contatoAlternativo) && SingleLine(d2.mensagem)
    requires FormatMessageContent(d1) == FormatMessageContent(d2)
    ensures d1.nome == d2.nome && d1.motivo == d2.motivo && d1.mensagem == d2.mensagem
    ensures ContactShown(d1.contatoAlternativo) == ContactShown(d2.contatoAlternativo)
  {
    FormatLines(d1);
    FormatLines(d2);
    var ls1, ls2 := Lines(FormatMessageContent(d1)), Lines(FormatMessageContent(d2));
    assert ls1[2] == ls2[2] && ls1[3] == ls2[3] && ls1[4] == ls2[4] && ls1[5] == ls2[5];
    AppendCancel("*Nome:* ", d1.nome, d2.nome);
    AppendCancel("*Motivo:* ", d1.motivo, d2.motivo);
    AppendCancel("*Contato alternativo:* ", ContactShown(d1.contatoAlternativo), ContactShown(d2.contatoAlternativo));
    AppendCancel("*Mensagem:* ", d1.mensagem, d2.mensagem);
  }

  lemma AppendCancel(p: string, a: string, b: string)
    requires p + a == p + b
    ensures a == b
  {
    assert a == (p + a)[|p|..];
  }

  // ---------------------------------------------------------------- the WhatsApp link

  const WA_PREFIX := "https://wa.me/"
  const TEXT_PARAM := "?text="

  /** `s` occurs in `t` in order, possibly with gaps. */
  predicate IsSubsequence(s: string, t: string)
    decreases |t|
  {
    if s == [] then true
    else if t == [] then false
    else (s[0] == t[0] && IsSubsequence(s[1..], t[1..])) || IsSubsequence(s, t[1..])
  }

  /** `phoneNumber.replace(/\D/g, "")`: the ASCII digits of the number, in order. Every digit
      of the input is kept, as often as it occurs, and nothing else is. */
  function Digits(phone: string): (r: string)
    ensures AllDigits(r)
    ensures IsSubsequence(r, phone)
    ensures forall c :: IsDigit(c) ==> multiset(r)[c] == multiset(phone)[c]
    ensures forall c :: !IsDigit(c) ==> multiset(r)[c] == 0
  {
    if phone == [] then []
    else
      var rest := Digits(phone[1..]);
      assert phone == [phone[0]] + phone[1..];
      if IsDigit(phone[0]) then [phone[0]] + rest else rest
  }

  lemma {:induction false} DigitsOfDigits(s: string)
    requires AllDigits(s)
    ensures Digits(s) == s
  {
    if s != [] {
      DigitsOfDigits(s[1..]);
      assert s == [s[0]] + s[1..];
    }
  }

  /** Cleaning the number a second time changes nothing. */
  lemma DigitsIdempotent(phone: string)
    ensures Digits(Digits(phone)) == Digits(phone)
  {
    DigitsOfDigits(Digits(phone));
  }

  /** `createWhatsAppLink`: the `wa.me` address of the cleaned number, with the encoded message
      as its `text` parameter. */
  function CreateWhatsAppLink(message: string, phoneNumber: string): (r: string)
    ensures var k := |WA_PREFIX| + |Digits(phoneNumber)|;
      && k + |TEXT_PARAM| <= |r| && r[..|WA_PREFIX|] == WA_PREFIX
      && AllDigits(r[|WA_PREFIX|..k]) && r[k..k + |TEXT_PARAM|] == TEXT_PARAM
      && WellEncoded(r[k + |TEXT_PARAM|..])
  {
    var d := Digits(phoneNumber);
    var e := EncodeURIComponent(message);
    EncodeWellEncoded(message);
    LinkParts(WA_PREFIX, d, TEXT_PARAM, e);
    WA_PREFIX + d + TEXT_PARAM + e
  }

  lemma LinkParts(prefix: string, d: string, param: string, e: string)
    ensures var u := prefix + d + param + e;
      && u[..|prefix|] == prefix && u[|prefix|..|prefix| + |d|] == d
      && u[|prefix| + |d|..|prefix| + |d| + |param|] == param
      && u[|prefix| + |d| + |param|..] == e
  {
  }

  /** The number of leading ASCII digits. */
  function DigitSpan(s: string): (k: nat)
    ensures k <= |s| && AllDigits(s[..k])
    ensures k < |s| ==> !IsDigit(s[k])
  {
    if s == [] || !IsDigit(s[0]) then 0
    else
      var k := 1 + DigitSpan(s[1..]);
      assert s[..k] == [s[0]] + s[1..][..k - 1];
      k
  }

  /** Reads a link made of `prefix`, a run of digits, `param` and a percent-encoded text. */
  function ParseLink(url: string, prefix: string, param: string): (r: Option<(string, string)>)
  {
    if |url| < |prefix| || url[..|prefix|] != prefix then None
    else
      var rest := url[|prefix|..];
      var k := DigitSpan(rest);
      var tail := rest[k..];
      if |tail| < |param| || tail[..|param|] != param then None
      else match DecodeURIComponent(tail[|param|..])
        case None => None
        case Some(text) => Some((rest[..k], text))
  }

  /** Reads a WhatsApp link back into its phone digits and its decoded text. */
  function ParseWhatsAppLink(url: string): (r: Option<(string, string)>)
  {
    ParseLink(url, WA_PREFIX, TEXT_PARAM)
  }

  lemma {:induction false} DigitSpanOf(d: string, t: string)
    requires AllDigits(d)
    requires t != [] && !IsDigit(t[0])
    ensures DigitSpan(d + t) == |d|
  {
    if d != [] {
      assert (d + t)[1..] == d[1..] + t;
      DigitSpanOf(d[1..], t);
    } else {
      assert d + t == t;
    }
  }

  lemma ParseLinkOf(prefix: string, d: string, param: string, e: string, m: string)
    requires AllDigits(d) && param != [] && !IsDigit(param[0])
    requires DecodeURIComponent(e) == Some(m)
    ensures ParseLink(prefix + d + param + e, prefix, param) == Some((d, m))
  {
    var url := prefix + d + param + e;
    assert url == prefix + (d + (param + e));
    assert url[..|prefix|] == prefix;
    var rest := url[|prefix|..];
    assert rest == d + (param + e);
    DigitSpanOf(d, param + e);
    assert rest[..|d|] == d;
    var tail := rest[|d|..];
    assert tail == param + e;
    assert tail[..|param|] == param;
    assert tail[|param|..] == e;
  }

  lemma LinkTail(prefix: string, d: string, param: string, e: string)
    ensures (prefix + d + param + e)[|prefix| + |d| + |param|..] == e
  {
  }

  /** The link holds the digits of the number and the message, both recoverable: the path is
      the digit string and the `text` parameter decodes to the message. */
  lemma WhatsAppLinkRoundTrip(message: string, phoneNumber: string)
    ensures ParseWhatsAppLink(CreateWhatsAppLink(message, phoneNumber)) == Some((Digits(phoneNumber), message))
    ensures WellEncoded(CreateWhatsAppLink(message, phoneNumber)[|WA_PREFIX| + |Digits(phoneNumber)| + |TEXT_PARAM|..])
  {
    var d := Digits(phoneNumber);
    var e := EncodeURIComponent(message);
    EncodeRoundTrip(message);
    EncodeWellEncoded(message);
    assert !IsDigit(TEXT_PARAM[0]);
    ParseLinkOf(WA_PREFIX, d, TEXT_PARAM, e, message);
    LinkTail(WA_PREFIX, d, TEXT_PARAM, e);
  }
}
