/** What the donations table shows in the donor, status and destination
    cells of a row. */
module DonationColumns {
  import opened Wrappers
  import opened Types

  const Anonymous: string := "Anônimo"
  const ApprovedClass: string := "bg-green-600 hover:bg-green-600/90 text-white border-transparent"

  /** The badge styles of the component library. */
  datatype BadgeVariant = Default | Secondary | Destructive

  /** The "Destino" cell. */
  datatype Destination = ToProject(projectName: string) | ToInstitution(institutionName: string) | General

  /** `donor?.account.name || 'Anônimo'`. */
  function DonorName(d: Donation): (name: string)
    ensures d.donorName.Some? && d.donorName.value != "" ==> name == d.donorName.value
    ensures d.donorName.None? || d.donorName == Some("") ==> name == Anonymous
    ensures name != ""
  {
    match d.donorName
    case Some(n) => if n != "" then n else Anonymous
    case None => Anonymous
  }

  function Variant(status: string): (v: BadgeVariant)
    ensures v == Default <==> status == "APPROVED"
    ensures v == Secondary <==> status == "PENDING"
    ensures v == Destructive <==> status != "APPROVED" && status != "PENDING"
  {
    if status == "APPROVED" then Default
    else if status == "PENDING" then Secondary
    else Destructive
  }

  /** `statusClasses[status]`: only an approved donation gets a class. */
  function StatusClass(status: string): (c: Option<string>)
    ensures c.Some? <==> status == "APPROVED"
    ensures c.Some? <==> Variant(status) == Default
    ensures c.Some? ==> c.value == ApprovedClass
  {
    var classes := map["APPROVED" := ApprovedClass];
    if status in classes then Some(classes[status]) else None
  }

  /** `labelMap[status] || status`: one of the four known statuses gets
      its Portuguese label, anything else is shown as it came. */
  function StatusLabel(status: string): (text: string)
    ensures status == "APPROVED" ==> text == "Aprovado"
    ensures status == "PENDING" ==> text == "Pendente"
    ensures status == "CANCELED" ==> text == "Cancelado"
    ensures status == "REJECTED" ==> text == "Rejeitado"
    ensures status !in {"APPROVED", "PENDING", "CANCELED", "REJECTED"} ==> text == status
  {
    var labels := map[
      "APPROVED" := "Aprovado",
      "PENDING" := "Pendente",
      "CANCELED" := "Cancelado",
      "REJECTED" := "Rejeitado"];
    if status in labels && labels[status] != "" then labels[status] else status
  }

  /** A project wins over an institution, and a donation with neither is
      "Geral". */
  function DestinationOf(d: Donation): (dest: Destination)
    ensures d.projectName.Some? ==> dest == ToProject(d.projectName.value)
    ensures d.projectName.None? && d.institutionName.Some? ==> dest == ToInstitution(d.institutionName.value)
    ensures d.projectName.None? && d.institutionName.None? ==> dest == General
  {
    if d.projectName.Some? then ToProject(d.projectName.value)
    else if d.institutionName.Some? then ToInstitution(d.institutionName.value)
    else General
  }
}
