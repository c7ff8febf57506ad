/**
 * The in-memory stores the service works on: users by id, accounts by account
 * number and the append-only transaction log, with the lookup of a record by
 * its transaction id.
 */
module Stores {
  import opened Domain

  datatype Store = Store(
    users: map<int, AccountUser>,
    accounts: map<string, Account>,
    log: seq<Transaction>)

  /** No two records of the log carry the same transaction id. */
  ghost predicate UniqueIds(log: seq<Transaction>)
  {
    forall i, j :: 0 <= i < j < |log| ==> log[i].transactionId != log[j].transactionId
  }

  /** `id` is not the transaction id of any record of the log. */
  predicate FreshId(log: seq<Transaction>, id: string)
  {
    forall i :: 0 <= i < |log| ==> log[i].transactionId != id
  }

  /**
   * The consistency of the stores: each user and each account is filed under
   * its own key, no balance is negative, transaction ids are unique, and every
   * record refers to a stored account by that account's number and id.
   */
  ghost predicate Consistent(s: Store)
  {
    (forall k :: k in s.users ==> s.users[k].id == k)
    && (forall n :: n in s.accounts ==> s.accounts[n].accountNumber == n && s.accounts[n].balance >= 0)
    && UniqueIds(s.log)
    && (forall i :: 0 <= i < |s.log| ==>
          s.log[i].accountNumber in s.accounts
          && s.accounts[s.log[i].accountNumber].id == s.log[i].accountId)
  }

  /** The first record of the log whose transaction id is `id`, if there is one. */
  function FindTransaction(log: seq<Transaction>, id: string): (r: Option<Transaction>)
    ensures r.Some? ==> r.value in log && r.value.transactionId == id
    ensures r.None? <==> FreshId(log, id)
  {
    if |log| == 0 then None
    else if log[0].transactionId == id then Some(log[0])
    else FindTransaction(log[1..], id)
  }

  /** Appending a record makes it findable and leaves every other lookup as it was. */
  lemma {:induction false} FindAppend(log: seq<Transaction>, t: Transaction, id: string)
    requires FreshId(log, t.transactionId)
    ensures FindTransaction(log + [t], id)
         == if id == t.transactionId then Some(t) else FindTransaction(log, id)
  {
    if |log| == 0 {
      assert log + [t] == [t];
    } else {
      assert (log + [t])[1..] == log[1..] + [t];
      if log[0].transactionId != id {
        FindAppend(log[1..], t, id);
      }
    }
  }

  /** With unique ids, looking up a record's id finds that very record. */
  lemma FindUnique(log: seq<Transaction>, i: int)
    requires UniqueIds(log)
    requires 0 <= i < |log|
    ensures FindTransaction(log, log[i].transactionId) == Some(log[i])
  {
  }
}
