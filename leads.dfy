/** The lead record read by the dashboard and managed by the admin page.
    Timestamps are integer milliseconds since the epoch; `accessUntil` is
    the instant the ISO string in the `access_until` column denotes. */
module Leads {
  import opened Wrappers

  datatype Status = Pending | Approved | Blocked

  /** One row of the `leads` table (`created_at` is only read by the admin page). */
  datatype Lead = Lead(
    id: string,
    fullName: string,
    age: int,
    status: Status,
    accessUntil: Option<int>,
    hasCvSubmitted: bool,
    createdAt: int)

  /** The answer of a `select` on the `leads` table. */
  datatype LeadsReply = LeadsFailed(message: string) | LeadsRows(rows: seq<Lead>)
}
