/** How a workspace is named outside the database: by its organization and, within that, its name. */
module Workspaces {
  import opened Decimal

  datatype Ref = Ref(tenant: seq<byte>, name: seq<byte>)
}
