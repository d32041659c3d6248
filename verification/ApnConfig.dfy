/** The values the APN manager moves around: configurations, the modem's CID1
    context, ModemManager attach settings, and the snapshot a rollback restores. */
module ApnConfig {
  import opened Wrappers

  datatype Config = Config(apn: string, username: string, password: string, auth: string) {
    predicate IsEmpty() {
      apn == "" && username == "" && password == "" && (auth == "" || auth == "none")
    }

    /** NetworkManager stores no authentication type. */
    predicate EqualNM(o: Config) {
      apn == o.apn && username == o.username && password == o.password
    }

    predicate Equal(o: Config) {
      EqualNM(o) && NormalAuth(auth) == NormalAuth(o.auth)
    }
  }

  function NormalAuth(auth: string): string {
    if auth == "" then "none" else auth
  }

  const NoConfig := Config("", "", "", "")

  predicate SafeATValue(s: string) {
    '\"' !in s && '\r' !in s && '\n' !in s && ',' !in s && '\0' !in s
  }

  predicate SupportedAuth(auth: string) {
    auth == "" || auth == "none" || auth == "pap" || auth == "chap"
  }

  predicate ValidConfig(c: Config) {
    SafeATValue(c.apn) && SafeATValue(c.username) && SafeATValue(c.password) && SupportedAuth(c.auth)
  }

  datatype AttachContext = AttachContext(present: bool, pdpType: string, apn: string)

  function DesiredContext(c: Config): AttachContext {
    AttachContext(true, if c.apn == "" then "IPV4V6" else "IP", c.apn)
  }

  /** What an AT+CGAUTH write stores in the modem. */
  datatype Auth = NoAuth | Credentials(chap: bool, username: string, password: string)

  function AuthOf(c: Config): Auth {
    if (c.auth == "pap" || c.auth == "chap") && (c.username != "" || c.password != "")
    then Credentials(c.auth == "chap", c.username, c.password)
    else NoAuth
  }

  /** A ModemManager settings dictionary: a key that is absent, or holds a value
      of another type, is None. */
  datatype MMSettings = MMSettings(apn: Option<string>, user: Option<string>, password: Option<string>,
                                   allowedAuth: Option<nat>)

  const BEARER_AUTH_NONE: nat := 1
  const BEARER_AUTH_PAP: nat := 2
  const BEARER_AUTH_CHAP: nat := 4

  function EncodeAuth(s: string): nat {
    if s == "pap" then BEARER_AUTH_PAP else if s == "chap" then BEARER_AUTH_CHAP else BEARER_AUTH_NONE
  }

  predicate HasBit(u: nat, bit: nat)
    requires bit > 0
  {
    u / bit % 2 == 1
  }

  function DecodeAuth(u: nat): string {
    if HasBit(u, BEARER_AUTH_PAP) then "pap" else if HasBit(u, BEARER_AUTH_CHAP) then "chap" else "none"
  }

  function OrEmpty(s: Option<string>): string {
    match s case Some(v) => v case None => ""
  }

  function ParseMM(s: MMSettings): Config {
    Config(OrEmpty(s.apn), OrEmpty(s.user), OrEmpty(s.password),
           match s.allowedAuth case Some(u) => DecodeAuth(u) case None => "")
  }

  function EncodeMM(c: Config): MMSettings {
    MMSettings(Some(c.apn), Some(c.username), Some(c.password), Some(EncodeAuth(c.auth)))
  }

  /** Everything a transaction may have to put back. */
  datatype Snapshot = Snapshot(nm: Config, mm: MMSettings, cid: AttachContext)

  /** The snapshot of a modem nobody has configured. */
  const BLANK := Snapshot(NoConfig, EncodeMM(NoConfig), DesiredContext(NoConfig))

  /** What a transaction, or its rollback, is to write. */
  datatype Plan = Plan(nm: Config, mm: MMSettings, cid: AttachContext, auth: Auth)

  function PlanFor(c: Config): Plan {
    Plan(c, EncodeMM(c), DesiredContext(c), AuthOf(c))
  }

  function PlanBack(s: Snapshot): Plan {
    Plan(s.nm, s.mm, s.cid, AuthOf(ParseMM(s.mm)))
  }

  /** The settings dictionary gives back the configuration it was made from
      exactly when the authentication type is one the manager supports. */
  lemma MMRoundTrip(c: Config)
    ensures ParseMM(EncodeMM(c)).Equal(c) <==> SupportedAuth(c.auth)
    ensures SupportedAuth(c.auth) ==> AuthOf(ParseMM(EncodeMM(c))) == AuthOf(c)
    ensures ValidConfig(c) ==> ValidConfig(ParseMM(EncodeMM(c)))
  {
    assert HasBit(2, 2) && !HasBit(1, 2) && !HasBit(4, 2) && HasBit(4, 4) && !HasBit(1, 4);
  }

  /** Restoring the blank snapshot writes exactly what configuring nothing writes. */
  lemma BlankPlan()
    ensures PlanBack(BLANK) == PlanFor(NoConfig)
    ensures ValidConfig(ParseMM(BLANK.mm))
  {
    MMRoundTrip(NoConfig);
  }
}
