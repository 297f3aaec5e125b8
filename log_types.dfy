/** The kinds of entry written to the `logs` table, and their text form. */
module LogTypes {

  datatype LogType = PaymentRequested | PaymentReceivedUnconfirmed | PaymentReceivedConfirmed

  /** `Into<&str>`: the text stored in the `action` column. */
  function AsStr(t: LogType): (s: string)
    ensures s == "payment_requested" <==> t == PaymentRequested
    ensures s == "payment_received_unconfirmed" <==> t == PaymentReceivedUnconfirmed
    ensures s == "payment_received_confirmed" <==> t == PaymentReceivedConfirmed
  {
    match t
    case PaymentRequested => "payment_requested"
    case PaymentReceivedUnconfirmed => "payment_received_unconfirmed"
    case PaymentReceivedConfirmed => "payment_received_confirmed"
  }

  /** The strings `From<&str>` accepts; anything else panics. */
  predicate IsLogTypeName(s: string) {
    s == "payment_requested" || s == "payment_received_unconfirmed" || s == "payment_received_confirmed"
  }

  /** `From<&str>`: parses one of the three action names. */
  function FromStr(s: string): (t: LogType)
    requires IsLogTypeName(s)
    ensures AsStr(t) == s
  {
    match s
    case "payment_requested" => PaymentRequested
    case "payment_received_unconfirmed" => PaymentReceivedUnconfirmed
    case _ => PaymentReceivedConfirmed
  }

  /** `Into<String>`: the owned copy of the same text. */
  function AsString(t: LogType): (s: string)
    ensures s == AsStr(t)
  {
    var s := AsStr(t);
    s
  }

  /** Three variants, three distinct names. */
  lemma AsStrInjective(a: LogType, b: LogType)
    ensures AsStr(a) == AsStr(b) ==> a == b
  {
  }

  /** Every variant's name is accepted and parses back to the variant. */
  lemma FromAsStr(t: LogType)
    ensures IsLogTypeName(AsStr(t)) && FromStr(AsStr(t)) == t
  {
  }

  /** The accepted names are exactly the names of the variants. */
  lemma LogTypeNamesAreNames(s: string)
    ensures IsLogTypeName(s) <==> exists t: LogType :: AsStr(t) == s
  {
    if IsLogTypeName(s) {
      assert AsStr(FromStr(s)) == s;
    }
  }
}
