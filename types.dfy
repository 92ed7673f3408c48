/** The record types and constant tables of lib/types.ts. */
module Types {
  import opened Wrappers

  /** The three states a report can be in. */
  datatype MessageStatus = Queued | Sent | Failed

  /** The string literal that stands for each status in a stored record. */
  function StatusName(s: MessageStatus): (r: string)
    ensures r in ["queued", "sent", "failed"]
  {
    match s
    case Queued => "queued"
    case Sent => "sent"
    case Failed => "failed"
  }

  /** Reads a status literal back; any other string is not a status. */
  function ParseStatus(s: string): (r: Option<MessageStatus>)
    ensures r.Some? <==> s in ["queued", "sent", "failed"]
  {
    if s == "queued" then Some(Queued)
    else if s == "sent" then Some(Sent)
    else if s == "failed" then Some(Failed)
    else None
  }

  /** Every status has its own literal, and the literal reads back as that status. */
  lemma StatusRoundTrip(s: MessageStatus)
    ensures ParseStatus(StatusName(s)) == Some(s)
    ensures forall t: MessageStatus :: StatusName(t) == StatusName(s) ==> t == s
  {
  }

  /** One report as stored in the `messages` store: its key `id`, the creation time in epoch
      milliseconds, the four form fields, the formatted `content` and the status. */
  datatype MessageItem = MessageItem(
    id: string,
    timestamp: int,
    nome: string,
    motivo: string,
    contatoAlternativo: string,
    mensagem: string,
    content: string,
    status: MessageStatus)

  /** The session record; `email` is the key field of the `session` store. */
  datatype UserSession = UserSession(email: string, loggedIn: bool, timestamp: int)

  /** The four text fields of the report form, the input of the message template. */
  datatype ReportFormData = ReportFormData(
    nome: string,
    motivo: string,
    contatoAlternativo: string,
    mensagem: string)

  /** An antenna shown on the coverage map; coordinates are decimal degrees. */
  datatype Antenna = Antenna(id: string, name: string, lat: real, lng: real, radiusMeters: real)

  /** A select option; `labelText` is the source's `label` (a reserved word in Dafny). */
  datatype MotivoOption = MotivoOption(value: string, labelText: string)

  /** The reasons offered by the report form's select. */
  const MOTIVO_OPTIONS: seq<MotivoOption> := [
    MotivoOption("sem_sinal", "Sem sinal"),
    MotivoOption("sinal_fraco", "Sinal fraco"),
    MotivoOption("queda_conexao", "Queda de conex\U{E3}o"),
    MotivoOption("lentidao", "Lentid\U{E3}o"),
    MotivoOption("outro", "Outro")
  ]

  const MOCK_ANTENNAS: seq<Antenna> := [
    Antenna("1", "Antena Central", -16.6869, -49.2648, 2000.0),
    Antenna("2", "Antena Norte", -16.6569, -49.2548, 1500.0),
    Antenna("3", "Antena Sul", -16.7169, -49.2748, 1800.0)
  ]

  /** The option table has five entries whose values, and whose labels, are pairwise distinct. */
  lemma MotivoOptionsDistinct()
    ensures |MOTIVO_OPTIONS| == 5
    ensures forall i, j :: 0 <= i < j < |MOTIVO_OPTIONS| ==>
      MOTIVO_OPTIONS[i].value != MOTIVO_OPTIONS[j].value && MOTIVO_OPTIONS[i].labelText != MOTIVO_OPTIONS[j].labelText
  {
  }

  /** The antenna table has three entries with ids "1", "2", "3" and positive radii. */
  lemma MockAntennasWellFormed()
    ensures |MOCK_ANTENNAS| == 3
    ensures forall i :: 0 <= i < 3 ==> MOCK_ANTENNAS[i].id == ["123"[i]]
    ensures forall i :: 0 <= i < 3 ==> MOCK_ANTENNAS[i].radiusMeters > 0.0
  {
  }
}
