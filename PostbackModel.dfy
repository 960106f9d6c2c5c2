/** The `postbacks` audit table (app/models/postback.py). */
module PostbackModel {
  import opened Wrappers

  datatype Postback = Postback(
    id: int,                      // autoincrement primary key
    event: string,
    tgId: Option<int>,
    externalId: Option<string>,
    amountUsd: Option<real>,
    ts: Option<int>,
    rawText: Option<string>,
    hash: Option<string>)         // unique, but nothing ever writes it

  /** Autoincrement ids: rows in insertion order have strictly increasing ids. */
  predicate IdsIncreasing(rows: seq<Postback>) {
    forall i, j :: 0 <= i < j < |rows| ==> rows[i].id < rows[j].id
  }

  predicate IdsBelow(rows: seq<Postback>, next: int) {
    forall i :: 0 <= i < |rows| ==> rows[i].id < next
  }

  lemma AppendKeepsIncreasing(rows: seq<Postback>, next: int, row: Postback)
    requires IdsIncreasing(rows) && IdsBelow(rows, next) && row.id == next
    ensures IdsIncreasing(rows + [row]) && IdsBelow(rows + [row], next + 1)
  {
  }
}
