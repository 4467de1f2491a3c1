/** The records the dashboard receives from its backend, reduced to the
    fields the modelled logic reads. Amounts are integers (cents); the
    backend's decimal numbers are not modelled. */
module Types {
  import opened Wrappers

  datatype AccountType = ADMIN | INSTITUTION | DONOR

  /** The moderation state of an account. */
  datatype AccountStatus = ACTIVE | PENDING | SUSPENDED | BANNED | INACTIVE

  datatype Account = Account(
    id: int,
    name: string,
    email: string,
    status: AccountStatus,
    accountType: AccountType,
    createdAt: string)

  /** The profile cached beside the token by the session store. */
  datatype User = User(
    id: int,
    email: string,
    name: string,
    accountType: AccountType,
    mediaUrl: Option<string>,
    status: Option<string>)

  /** A donation row. `status` is kept as the raw string the backend
      sends, because the table shows an unknown status verbatim. A present
      `donor`, `institution` or `project` carries the name the table
      shows. */
  datatype Donation = Donation(
    id: int,
    amount: int,
    status: string,
    createdAt: string,
    donorName: Option<string>,
    institutionName: Option<string>,
    projectName: Option<string>)

  /** The enveloped page the `offset`/`limit` donation endpoint returns. */
  datatype PaginatedResponse<T> = PaginatedResponse(data: seq<T>, total: int)
}
