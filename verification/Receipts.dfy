/** Public receipts: one row per receipt id, moved forward by saves that the store may reject. */
module Receipts {
  import opened Outcomes

  datatype Settlement = NotStarted | Pending | Confirmed | Finalized | Unknown | Failed

  datatype Decision = Accepted | Rejected | Undecided | Errored

  /** The fields a later save must repeat. */
  datatype Identity = Identity(
    productId: string, network: string, assetMint: string, amountAtomic: string, recipient: string, resource: string)

  datatype Receipt = Receipt(
    id: string,
    identity: Identity,
    payer: Option<string>,
    decision: Decision,
    settlement: Settlement,
    signatureFingerprint: Option<string>,
    explorerUrl: Option<string>,
    policyDecisions: seq<string>,
    reasonCode: string,
    createdAt: int,
    updatedAt: int)

  datatype SaveError = SchemaInvalid | TransitionRejected

  /** The schema's cross-field rule. */
  predicate SchemaValid(r: Receipt) {
    r.updatedAt >= r.createdAt
  }

  /** The conditions under which a save replaces a stored row. */
  predicate Allowed(row: Receipt, next: Receipt) {
    && row.identity == next.identity
    && (row.settlement !in {Finalized, Failed} || row.settlement == next.settlement)
    && (row.settlement !in {Confirmed} || next.settlement in {Confirmed, Finalized, Failed})
    && row.updatedAt <= next.updatedAt
  }

  /** What an accepted save overwrites: neither identity, payer nor creation time. */
  function Replaced(row: Receipt, next: Receipt): Receipt {
    row.(decision := next.decision, settlement := next.settlement,
         signatureFingerprint := next.signatureFingerprint, explorerUrl := next.explorerUrl,
         policyDecisions := next.policyDecisions, reasonCode := next.reasonCode, updatedAt := next.updatedAt)
  }

  function SaveResult(table: map<string, Receipt>, next: Receipt): Result<Receipt, SaveError> {
    if !SchemaValid(next) then Err(SchemaInvalid)
    else if next.id !in table then Ok(next)
    else if Allowed(table[next.id], next) then Ok(Replaced(table[next.id], next))
    else Err(TransitionRejected)
  }

  function SaveTable(table: map<string, Receipt>, next: Receipt): map<string, Receipt> {
    match SaveResult(table, next)
    case Ok(row) => table[next.id := row]
    case Err(_) => table
  }

  class ReceiptStore {
    var receipts: map<string, Receipt>

    constructor ()
      ensures receipts == map[]
    {
      receipts := map[];
    }

    method SavePublicReceipt(next: Receipt) returns (result: Result<(), SaveError>)
      modifies this
      ensures receipts == SaveTable(old(receipts), next)
      ensures result == (match SaveResult(old(receipts), next) case Ok(_) => Ok(()) case Err(e) => Err(e))
    {
      if next.updatedAt < next.createdAt {
        return Err(SchemaInvalid);
      }
      if next.id in receipts {
        var row := receipts[next.id];
        if row.identity != next.identity
           || (row.settlement in {Finalized, Failed} && row.settlement != next.settlement)
           || (row.settlement == Confirmed && next.settlement !in {Confirmed, Finalized, Failed})
           || row.updatedAt > next.updatedAt {
          return Err(TransitionRejected);
        }
        receipts := receipts[next.id := Replaced(row, next)];
      } else {
        receipts := receipts[next.id := next];
      }
      return Ok(());
    }
  }

  function Run(table: map<string, Receipt>, saves: seq<Receipt>): map<string, Receipt> {
    if saves == [] then table else SaveTable(Run(table, saves[..|saves| - 1]), saves[|saves| - 1])
  }

  /** The settlements a stored receipt can still reach. */
  predicate MayReach(from: Settlement, to: Settlement) {
    match from
    case Finalized => to == Finalized
    case Failed => to == Failed
    case Confirmed => to in {Confirmed, Finalized, Failed}
    case _ => true
  }

  predicate TableValid(table: map<string, Receipt>) {
    forall id :: id in table ==> table[id].id == id && SchemaValid(table[id])
  }

  /**
    Over any series of saves a stored receipt keeps its identity, payer and creation time, never goes
    back in time, never leaves finalized or failed nor falls back from confirmed, and always satisfies
    the schema it is read back with.
   */
  lemma {:induction false} ReceiptsMoveForward(table: map<string, Receipt>, saves: seq<Receipt>, id: string)
    requires TableValid(table) && id in table
    ensures TableValid(Run(table, saves)) && id in Run(table, saves)
    ensures var before, after := table[id], Run(table, saves)[id];
      && after.identity == before.identity && after.payer == before.payer && after.createdAt == before.createdAt
      && before.updatedAt <= after.updatedAt && SchemaValid(after)
      && MayReach(before.settlement, after.settlement)
  {
    if saves != [] {
      ReceiptsMoveForward(table, saves[..|saves| - 1], id);
    }
  }

  /** After the saves the receipt is stored with the given settlement. */
  predicate Leads(table: map<string, Receipt>, saves: seq<Receipt>, id: string, to: Settlement) {
    var end := Run(table, saves);
    id in end && end[id].settlement == to
  }

  lemma OneSaveReaches(table: map<string, Receipt>, id: string, to: Settlement)
    requires TableValid(table) && id in table && MayReach(table[id].settlement, to)
    ensures Leads(table, [table[id].(settlement := to)], id, to)
  {
    var saves := [table[id].(settlement := to)];
    assert saves[..|saves| - 1] == [];
  }

  /** Exactly these settlements are reachable: each allowed target is one accepted save away. */
  lemma ReachableExactly(table: map<string, Receipt>, id: string, to: Settlement)
    requires TableValid(table) && id in table
    ensures MayReach(table[id].settlement, to) <==> exists saves :: Leads(table, saves, id, to)
  {
    if MayReach(table[id].settlement, to) {
      OneSaveReaches(table, id, to);
    }
    forall saves | Leads(table, saves, id, to) ensures MayReach(table[id].settlement, to) {
      ReceiptsMoveForward(table, saves, id);
    }
  }

  /** From an empty table every stored row can be read back. */
  lemma {:induction false} ReadBackNeverFails(saves: seq<Receipt>)
    ensures TableValid(Run(map[], saves))
  {
    if saves != [] {
      ReadBackNeverFails(saves[..|saves| - 1]);
    }
  }

  /**
    Exactly when a save is accepted, and what is stored then: a new receipt as it is, and a known one with
    the identity, payer and creation time it had and everything else from the save.
   */
  lemma SaveExactly(table: map<string, Receipt>, next: Receipt)
    ensures var known := next.id in table;
      var forward := known ==>
        var row := table[next.id];
        && row.identity == next.identity && row.updatedAt <= next.updatedAt
        && (row.settlement == Finalized || row.settlement == Failed ==> next.settlement == row.settlement)
        && (row.settlement == Confirmed ==>
              next.settlement == Confirmed || next.settlement == Finalized || next.settlement == Failed);
      && (SaveResult(table, next) == Err(SchemaInvalid) <==> next.updatedAt < next.createdAt)
      && (SaveResult(table, next) == Err(TransitionRejected) <==> next.createdAt <= next.updatedAt && !forward)
      && SaveTable(table, next) ==
           if next.createdAt <= next.updatedAt && forward then
             table[next.id :=
               if known then next.(
                 id := table[next.id].id, identity := table[next.id].identity,
                 payer := table[next.id].payer, createdAt := table[next.id].createdAt)
               else next]
           else table
  {
  }
}
