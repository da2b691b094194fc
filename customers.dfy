/**
 The customer registry as queries over the customers table: the exact-match
 lookup by NRC and the verification answer built on it.
 */
module CustomerRegistry {
  import opened Tables
  import opened Text

  /** The UNIQUE constraint on the nrc column. */
  predicate UniqueNrc(rows: seq<Customer>) {
    forall i, j :: 0 <= i < j < |rows| ==> rows[i].nrc != rows[j].nrc
  }

  /** `SELECT * FROM customers WHERE nrc = ?` followed by `fetchone()`: the
      first row whose nrc equals `nrc` exactly, if there is one. */
  function FindByNrc(rows: seq<Customer>, nrc: string): (r: Option<Customer>)
    ensures r.None? <==> forall i :: 0 <= i < |rows| ==> rows[i].nrc != nrc
    ensures r.Some? ==> exists i :: 0 <= i < |rows| && rows[i] == r.value
    ensures r.Some? ==> r.value.nrc == nrc
  {
    if rows == [] then None
    else if rows[0].nrc == nrc then Some(rows[0])
    else
      var r := FindByNrc(rows[1..], nrc);
      assert forall i :: 1 <= i < |rows| ==> rows[i] == rows[1..][i - 1];
      r
  }

  /** The verification handler: a blank NRC (after trimming) is refused;
      otherwise the customer registered under the trimmed NRC is reported
      verified, and an unknown NRC is reported not verified. */
  function Verify(rows: seq<Customer>, nrc: string): (r: VerifyOutcome)
    ensures r == NrcRequired <==> Trim(nrc) == []
    ensures r.Found? <==> Trim(nrc) != [] && exists i :: 0 <= i < |rows| && rows[i].nrc == Trim(nrc)
    ensures r.Found? ==> exists i :: 0 <= i < |rows| && rows[i].nrc == Trim(nrc) && r.customer == View(rows[i])
  {
    var n := Trim(nrc);
    if n == [] then NrcRequired
    else
      match FindByNrc(rows, n)
      case Some(c) => Found(View(c))
      case None => NotFound
  }

  /** With unique NRCs a lookup finds THE customer holding that NRC. */
  lemma {:induction false} FindByNrcUnique(rows: seq<Customer>, k: nat)
    requires UniqueNrc(rows) && k < |rows|
    ensures FindByNrc(rows, rows[k].nrc) == Some(rows[k])
  {
    if k > 0 {
      assert rows[0].nrc != rows[k].nrc;
      assert rows[1..][k - 1] == rows[k];
      FindByNrcUnique(rows[1..], k - 1);
    }
  }

  /** Appending a row whose NRC is new keeps the NRCs unique, and a later
      verification with that NRC (in any surrounding whitespace) reports
      exactly the appended customer. */
  lemma {:induction false} VerifyAfterInsert(rows: seq<Customer>, c: Customer, nrc: string)
    requires UniqueNrc(rows)
    requires c.nrc == Trim(nrc) && c.nrc != []
    requires FindByNrc(rows, c.nrc).None?
    ensures UniqueNrc(rows + [c])
    ensures Verify(rows + [c], nrc) == Found(View(c))
  {
    var rows' := rows + [c];
    assert rows'[|rows|] == c;
    FindByNrcUnique(rows', |rows|);
  }
}
