/** The control accounts the ledger is seeded with. */
module DefaultAccount {
  import opened Domain
  import Uuid

  /** The fixed id of the system cash account that funds new customer accounts. */
  const SYSTEM_CASH_ACCOUNT: string := "ddff1ec2-edb2-4d8e-90f0-115766cace6b"

  /** The system accounts: one cash account, exempt from the insufficient-funds check. */
  function SystemAccounts(): (r: seq<Account>)
    ensures |r| == 1
    ensures r[0].base.uuid == SYSTEM_CASH_ACCOUNT
    ensures r[0].isSystemAccount
    ensures r[0].header == CASH && r[0].balanceType == Debit
    ensures r[0].currency == KENYAN && r[0].number == "AC-0123456789"
  {
    [Account(
      BLANK_BASE.(uuid := SYSTEM_CASH_ACCOUNT),
      "Default System's Payment Method account",
      "Default System's Payment Method account",
      "AC-0123456789",
      KENYAN,
      Debit,
      CASH,
      true)]
  }

  /** The fixed id is a well-formed UUID, so the balance queries accept it. */
  lemma SystemCashIdIsUuid()
    ensures Uuid.ValidUuid(SYSTEM_CASH_ACCOUNT)
  {
    var s := SYSTEM_CASH_ACCOUNT;
    forall i | 0 <= i < 36
      ensures if Uuid.IsHyphenPosition(i) then s[i] == '-' else Uuid.IsHexDigit(s[i])
    {
    }
  }
}
