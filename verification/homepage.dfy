/** The manual-entry list of the home page (frontend/src/components/HomePage.tsx): the rows the
    user types (name, quantity, details), the handlers that edit, add and remove rows, and the
    check before the list is sent for search. The quantity input's own rule
    (frontend/src/components/ProductTable.tsx) is here too. */
module HomePage {
  import opened Wrappers
  import opened Js

  /** One row of the list. */
  datatype Row = Row(name: string, quantity: int, details: string)

  /** A field of a row with the value written into it, as the table's inputs pass them. */
  datatype Change = SetName(name: string) | SetQuantity(quantity: int) | SetDetails(details: string)

  /** `{ ...row, [field]: value }`. */
  function Changed(row: Row, c: Change): Row {
    match c
    case SetName(v) => row.(name := v)
    case SetQuantity(v) => row.(quantity := v)
    case SetDetails(v) => row.(details := v)
  }

  /** A change writes its own field and leaves the other two as they were. */
  lemma ChangeTouchesOneField(row: Row, c: Change)
    ensures Changed(row, c).name == (if c.SetName? then c.name else row.name)
    ensures Changed(row, c).quantity == (if c.SetQuantity? then c.quantity else row.quantity)
    ensures Changed(row, c).details == (if c.SetDetails? then c.details else row.details)
  {
  }

  /** The row `addProduct` appends. */
  const EmptyRow := Row("", 1, "")

  /** `rows.filter((_, i) => i !== index)`, reading the rows from position `offset` on. */
  function FilterIndex(rows: seq<Row>, index: int, offset: int): seq<Row> {
    if rows == [] then []
    else (if offset == index then [] else [rows[0]]) + FilterIndex(rows[1..], index, offset + 1)
  }

  /** Without the row at `index`: one row fewer when `index` is a position of the list, the same
      list otherwise. */
  function WithoutRow(rows: seq<Row>, index: int): (r: seq<Row>)
    ensures 0 <= index < |rows| ==> |r| == |rows| - 1 && r[..index] == rows[..index] && r[index..] == rows[index + 1..]
    ensures !(0 <= index < |rows|) ==> r == rows
  {
    FilterIndexSpec(rows, index, 0);
    FilterIndex(rows, index, 0)
  }

  lemma {:induction false} FilterIndexSpec(rows: seq<Row>, index: int, offset: int)
    ensures offset <= index < offset + |rows| ==>
      FilterIndex(rows, index, offset) == rows[..index - offset] + rows[index - offset + 1..]
    ensures !(offset <= index < offset + |rows|) ==> FilterIndex(rows, index, offset) == rows
  {
    if rows != [] {
      FilterIndexSpec(rows[1..], index, offset + 1);
      if offset == index {
        assert FilterIndex(rows[1..], index, offset + 1) == rows[1..];
      } else if offset < index < offset + |rows| {
        assert rows[..index - offset] == [rows[0]] + rows[1..][..index - offset - 1];
        assert rows[index - offset + 1..] == rows[1..][index - offset..];
      } else {
        assert rows == [rows[0]] + rows[1..];
      }
    }
  }

  /** `products.filter(p => p.name.trim() !== '')`: the rows with a name that is not all
      whitespace (the names `trim` leaves non-empty), whole and in order. */
  function ValidProducts(rows: seq<Row>): (r: seq<Row>)
    ensures |r| <= |rows|
  {
    if rows == [] then []
    else (if !AllSpace(rows[0].name) then [rows[0]] else []) + ValidProducts(rows[1..])
  }

  /** The rows kept are exactly the rows whose name is not blank after `trim`. */
  lemma {:induction false} ValidProductsMembers(rows: seq<Row>, x: Row)
    ensures x in ValidProducts(rows) <==> x in rows && Trim(x.name) != []
  {
    if rows != [] {
      ValidProductsMembers(rows[1..], x);
      assert rows == [rows[0]] + rows[1..];
    }
    assert Trim(x.name) == [] <==> AllSpace(x.name);
  }

  /** The filter keeps the order of the rows. */
  lemma {:induction false} ValidProductsAppend(a: seq<Row>, b: seq<Row>)
    ensures ValidProducts(a + b) == ValidProducts(a) + ValidProducts(b)
  {
    if a == [] {
      assert a + b == b;
    } else {
      var h := if !AllSpace(a[0].name) then [a[0]] else [];
      assert (a + b)[0] == a[0] && (a + b)[1..] == a[1..] + b;
      assert ValidProducts(a + b) == h + ValidProducts(a[1..] + b);
      ValidProductsAppend(a[1..], b);
      assert ValidProducts(a + b) == h + (ValidProducts(a[1..]) + ValidProducts(b));
      assert ValidProducts(a) == h + ValidProducts(a[1..]);
      assert h + (ValidProducts(a[1..]) + ValidProducts(b)) == (h + ValidProducts(a[1..])) + ValidProducts(b);
    }
  }

  /** A list of blank names submits nothing. */
  lemma {:induction false} AllBlankIsInvalid(rows: seq<Row>)
    requires forall i :: 0 <= i < |rows| ==> AllSpace(rows[i].name)
    ensures ValidProducts(rows) == []
  {
    if rows != [] {
      AllBlankIsInvalid(rows[1..]);
    }
  }

  /** `parseInt(e.target.value) || 1`: the number the text starts with, or 1 when there is none
      or it is 0. Never 0; a negative number is kept. */
  function QuantityInput(v: string): (q: int)
    ensures q != 0
    ensures ParseInt(v).None? ==> q == 1
    ensures ParseInt(v).Some? ==> q == if ParseInt(v).value == 0 then 1 else ParseInt(v).value
  {
    match ParseInt(v)
    case None => 1
    case Some(n) => if n == 0 then 1 else n
  }

  /** What `handleSubmit` shows in an `alert`, if anything. */
  datatype Alert = NoAlert | NoProducts | ProcessingFailed

  class HomePage {
    var products: seq<Row>
    var textInput: string
    var isProcessing: bool

    constructor ()
      ensures products == [] && textInput == [] && !isProcessing
    {
      products := [];
      textInput := [];
      isProcessing := false;
    }

    /** `handleProductChange(index, field, value)`: row `index` takes the new value in that
        field; the length and every other row stay. */
    method HandleProductChange(index: nat, c: Change)
      requires index < |products|
      modifies this
      ensures products == old(products)[index := Changed(old(products)[index], c)]
      ensures textInput == old(textInput) && isProcessing == old(isProcessing)
    {
      var updatedProducts := products;
      updatedProducts := updatedProducts[index := Changed(updatedProducts[index], c)];
      products := updatedProducts;
    }

    /** `addProduct()`: an empty row at the end. */
    method AddProduct()
      modifies this
      ensures products == old(products) + [EmptyRow]
      ensures textInput == old(textInput) && isProcessing == old(isProcessing)
    {
      products := products + [EmptyRow];
    }

    /** `removeProduct(index)`: with more than one row, the row at `index` goes; the last row is
        never removed. */
    method RemoveProduct(index: int)
      modifies this
      ensures products == if |old(products)| > 1 then WithoutRow(old(products), index) else old(products)
      ensures old(products) != [] ==> products != []
      ensures textInput == old(textInput) && isProcessing == old(isProcessing)
    {
      if |products| > 1 {
        products := WithoutRow(products, index);
      }
    }

    /** The synchronous part of `handleSubmit()`: with no valid row it alerts and leaves the
        processing flag alone; otherwise it raises the flag and returns the rows sent. */
    method BeginSubmit() returns (payload: Option<seq<Row>>, alert: Alert)
      modifies this
      ensures ValidProducts(products) == [] ==> payload == None && alert == NoProducts && isProcessing == old(isProcessing)
      ensures ValidProducts(products) != [] ==> payload == Some(ValidProducts(products)) && alert == NoAlert && isProcessing
      ensures products == old(products) && textInput == old(textInput)
    {
      var validProducts := ValidProducts(products);
      if |validProducts| == 0 {
        return None, NoProducts;
      }
      isProcessing := true;
      payload, alert := Some(validProducts), NoAlert;
    }

    /** The end of `handleSubmit()` once the request has settled: a failure alerts, and the
        processing flag comes down either way. */
    method FinishSubmit(succeeded: bool) returns (alert: Alert)
      modifies this
      ensures alert == if succeeded then NoAlert else ProcessingFailed
      ensures !isProcessing
      ensures products == old(products) && textInput == old(textInput)
    {
      alert := if succeeded then NoAlert else ProcessingFailed;
      isProcessing := false;
    }
  }
}
