/** The checks the merchant's item form runs before saving
    (source/modules/merchant/scripts/item-helper/item-validator.js): each
    check collects error messages in a list, in a fixed order, and the form
    is valid when the three lists together are empty. */
module ItemValidator {
  import opened Wrappers
  import opened Text
  import opened Js

  /** The fields of the form the checks read. A missing field, or one that
      is not a number, is `None`: every comparison with it is false. */
  datatype ItemData = ItemData(
    name: Option<string>, sku: Option<string>,
    costPrice: Option<int>, sellingPrice: Option<int>, mrp: Option<int>, gstRate: Option<int>,
    stockQty: Option<int>, lowStockThreshold: Option<int>,
    reorderQuantity: Option<int>, maxStockLevel: Option<int>)

  /** What each check returns. */
  datatype Validation = Validation(isValid: bool, errors: seq<string>)

  /** `a < b` on two fields: false when either is missing. */
  predicate Less(a: Option<int>, b: Option<int>) {
    a.Some? && b.Some? && a.value < b.value
  }

  /** `!field?.trim()`: the field is missing or only whitespace. */
  predicate Blank(field: Option<string>) {
    field.None? || Trim(field.value) == ""
  }

  /** A text trims to nothing exactly when every character is whitespace. */
  lemma BlankIff(s: string)
    ensures Trim(s) == "" <==> forall i :: 0 <= i < |s| ==> IsSpace(s[i])
  {
    var l := LStrip(s, IsSpace);
    LStripSpec(s, IsSpace);
    RStripSpec(l, IsSpace);
    if l != [] {
      assert l[0] == s[|s| - |l|];
    }
  }

  /** The messages whose check failed, in the order of the checks. */
  function Picked(messages: seq<string>, failed: seq<bool>): seq<string>
    requires |messages| == |failed|
  {
    if |messages| == 0 then []
    else (if failed[0] then [messages[0]] else []) + Picked(messages[1..], failed[1..])
  }

  /** With distinct messages, a message is reported exactly when its check
      failed, and nothing is reported exactly when no check failed. */
  lemma {:induction false} PickedSpec(messages: seq<string>, failed: seq<bool>, k: nat)
    requires |messages| == |failed| && k < |messages|
    requires forall i, j :: 0 <= i < j < |messages| ==> messages[i] != messages[j]
    ensures messages[k] in Picked(messages, failed) <==> failed[k]
    ensures Picked(messages, failed) == [] <==> forall i :: 0 <= i < |failed| ==> !failed[i]
    decreases |messages|
  {
    if k > 0 {
      PickedSpec(messages[1..], failed[1..], k - 1);
      assert messages[1..][k - 1] == messages[k];
    } else if |messages| > 1 {
      PickedSpec(messages[1..], failed[1..], 0);
      assert messages[k] !in Picked(messages[1..], failed[1..]) by {
        PickedOnly(messages[1..], failed[1..]);
      }
    }
    if |messages| > 1 {
      assert forall i :: 1 <= i < |failed| ==> failed[i] == failed[1..][i - 1];
    }
  }

  /** Only listed messages are reported. */
  lemma {:induction false} PickedOnly(messages: seq<string>, failed: seq<bool>)
    requires |messages| == |failed|
    ensures forall m :: m in Picked(messages, failed) ==> m in messages
    decreases |messages|
  {
    if |messages| > 0 {
      PickedOnly(messages[1..], failed[1..]);
    }
  }

  /** The checks one by one: a failed check's message follows the messages
      of the failed checks before it. */
  lemma PickedInTurn(messages: seq<string>, failed: seq<bool>)
    requires |messages| == |failed|
    ensures forall k :: 0 <= k < |messages| ==>
      Picked(messages[..k + 1], failed[..k + 1]) ==
        Picked(messages[..k], failed[..k]) + (if failed[k] then [messages[k]] else [])
  {
    forall k | 0 <= k < |messages|
      ensures Picked(messages[..k + 1], failed[..k + 1]) ==
        Picked(messages[..k], failed[..k]) + (if failed[k] then [messages[k]] else [])
    {
      PickedSnoc(messages[..k], failed[..k], messages[k], failed[k]);
      assert messages[..k] + [messages[k]] == messages[..k + 1];
      assert failed[..k] + [failed[k]] == failed[..k + 1];
    }
  }

  lemma {:induction false} PickedSnoc(messages: seq<string>, failed: seq<bool>, m: string, f: bool)
    requires |messages| == |failed|
    ensures Picked(messages + [m], failed + [f]) == Picked(messages, failed) + (if f then [m] else [])
    decreases |messages|
  {
    if |messages| > 0 {
      PickedSnoc(messages[1..], failed[1..], m, f);
      assert (messages + [m])[1..] == messages[1..] + [m];
      assert (failed + [f])[1..] == failed[1..] + [f];
    } else {
      assert (messages + [m])[1..] == [];
    }
  }

  // ---------------------------------------------------------------------------
  // The three checks
  // ---------------------------------------------------------------------------

  const BasicMessages: seq<string> := [
    "Item name is required",
    "SKU is required",
    "Cost price cannot be negative",
    "Selling price cannot be negative",
    "Selling price cannot be less than cost price"
  ]

  /** Which of the basic checks fail, in the order of `BasicMessages`. */
  function BasicFailures(data: ItemData): seq<bool> {
    [ Blank(data.name), Blank(data.sku),
      Less(data.costPrice, Some(0)), Less(data.sellingPrice, Some(0)),
      Less(data.sellingPrice, data.costPrice) ]
  }

  const InventoryMessages: seq<string> := [
    "Stock quantity cannot be negative",
    "Low stock threshold cannot be negative",
    "Reorder quantity cannot be negative",
    "Maximum stock level cannot be negative"
  ]

  /** Which of the inventory checks fail, in the order of `InventoryMessages`. */
  function InventoryFailures(data: ItemData): seq<bool> {
    [ Less(data.stockQty, Some(0)), Less(data.lowStockThreshold, Some(0)),
      Less(data.reorderQuantity, Some(0)), Less(data.maxStockLevel, Some(0)) ]
  }

  const PricingMessages: seq<string> := [
    "GST rate must be between 0 and 100",
    "MRP cannot be less than selling price"
  ]

  /** Which of the pricing checks fail, in the order of `PricingMessages`. */
  function PricingFailures(data: ItemData): seq<bool> {
    [ Less(data.gstRate, Some(0)) || Less(Some(100), data.gstRate),
      Less(data.mrp, data.sellingPrice) ]
  }

  /** `validateBasicInfo(data)`. */
  method ValidateBasicInfo(data: ItemData) returns (v: Validation)
    ensures v.errors == Picked(BasicMessages, BasicFailures(data))
    ensures v.isValid <==> v.errors == []
  {
    ghost var messages, failed := BasicMessages, BasicFailures(data);
    PickedInTurn(messages, failed);
    var errors := [];
    assert errors == Picked(messages[..0], failed[..0]);
    if Blank(data.name) {
      errors := errors + ["Item name is required"];
    }
    assert errors == Picked(messages[..1], failed[..1]);
    if Blank(data.sku) {
      errors := errors + ["SKU is required"];
    }
    assert errors == Picked(messages[..2], failed[..2]);
    if Less(data.costPrice, Some(0)) {
      errors := errors + ["Cost price cannot be negative"];
    }
    assert errors == Picked(messages[..3], failed[..3]);
    if Less(data.sellingPrice, Some(0)) {
      errors := errors + ["Selling price cannot be negative"];
    }
    assert errors == Picked(messages[..4], failed[..4]);
    if Less(data.sellingPrice, data.costPrice) {
      errors := errors + ["Selling price cannot be less than cost price"];
    }
    assert errors == Picked(messages[..5], failed[..5]);
    assert messages[..5] == messages && failed[..5] == failed;
    v := Validation(|errors| == 0, errors);
  }

  /** `validateInventory(data)`. */
  method ValidateInventory(data: ItemData) returns (v: Validation)
    ensures v.errors == Picked(InventoryMessages, InventoryFailures(data))
    ensures v.isValid <==> v.errors == []
  {
    ghost var messages, failed := InventoryMessages, InventoryFailures(data);
    PickedInTurn(messages, failed);
    var errors := [];
    assert errors == Picked(messages[..0], failed[..0]);
    if Less(data.stockQty, Some(0)) {
      errors := errors + ["Stock quantity cannot be negative"];
    }
    assert errors == Picked(messages[..1], failed[..1]);
    if Less(data.lowStockThreshold, Some(0)) {
      errors := errors + ["Low stock threshold cannot be negative"];
    }
    assert errors == Picked(messages[..2], failed[..2]);
    if Less(data.reorderQuantity, Some(0)) {
      errors := errors + ["Reorder quantity cannot be negative"];
    }
    assert errors == Picked(messages[..3], failed[..3]);
    if Less(data.maxStockLevel, Some(0)) {
      errors := errors + ["Maximum stock level cannot be negative"];
    }
    assert errors == Picked(messages[..4], failed[..4]);
    assert messages[..4] == messages && failed[..4] == failed;
    v := Validation(|errors| == 0, errors);
  }

  /** `validatePricing(data)`. */
  method ValidatePricing(data: ItemData) returns (v: Validation)
    ensures v.errors == Picked(PricingMessages, PricingFailures(data))
    ensures v.isValid <==> v.errors == []
  {
    ghost var messages, failed := PricingMessages, PricingFailures(data);
    PickedInTurn(messages, failed);
    var errors := [];
    assert errors == Picked(messages[..0], failed[..0]);
    if Less(data.gstRate, Some(0)) || Less(Some(100), data.gstRate) {
      errors := errors + ["GST rate must be between 0 and 100"];
    }
    assert errors == Picked(messages[..1], failed[..1]);
    if Less(data.mrp, data.sellingPrice) {
      errors := errors + ["MRP cannot be less than selling price"];
    }
    assert errors == Picked(messages[..2], failed[..2]);
    assert messages[..2] == messages && failed[..2] == failed;
    v := Validation(|errors| == 0, errors);
  }

  /** `validateFormData(data)`: the three lists one after the other. */
  method ValidateFormData(data: ItemData) returns (v: Validation)
    ensures v.errors == Picked(BasicMessages, BasicFailures(data))
      + Picked(InventoryMessages, InventoryFailures(data))
      + Picked(PricingMessages, PricingFailures(data))
    ensures v.isValid <==> v.errors == []
  {
    var basicValidation := ValidateBasicInfo(data);
    var inventoryValidation := ValidateInventory(data);
    var pricingValidation := ValidatePricing(data);
    var allErrors := basicValidation.errors + inventoryValidation.errors + pricingValidation.errors;
    v := Validation(|allErrors| == 0, allErrors);
  }

  /** Each message of the basic check is reported exactly when its
      condition holds. */
  lemma BasicInfoSpec(data: ItemData)
    ensures var errors := Picked(BasicMessages, BasicFailures(data));
      && ("Item name is required" in errors <==> Blank(data.name))
      && ("SKU is required" in errors <==> Blank(data.sku))
      && ("Cost price cannot be negative" in errors <==> Less(data.costPrice, Some(0)))
      && ("Selling price cannot be negative" in errors <==> Less(data.sellingPrice, Some(0)))
      && ("Selling price cannot be less than cost price" in errors <==> Less(data.sellingPrice, data.costPrice))
  {
    var failed := BasicFailures(data);
    PickedSpec(BasicMessages, failed, 0);
    PickedSpec(BasicMessages, failed, 1);
    PickedSpec(BasicMessages, failed, 2);
    PickedSpec(BasicMessages, failed, 3);
    PickedSpec(BasicMessages, failed, 4);
  }

  /** Each inventory message is reported exactly when its field is negative. */
  lemma InventorySpec(data: ItemData)
    ensures var errors := Picked(InventoryMessages, InventoryFailures(data));
      && ("Stock quantity cannot be negative" in errors <==> Less(data.stockQty, Some(0)))
      && ("Low stock threshold cannot be negative" in errors <==> Less(data.lowStockThreshold, Some(0)))
      && ("Reorder quantity cannot be negative" in errors <==> Less(data.reorderQuantity, Some(0)))
      && ("Maximum stock level cannot be negative" in errors <==> Less(data.maxStockLevel, Some(0)))
  {
    var failed := InventoryFailures(data);
    PickedSpec(InventoryMessages, failed, 0);
    PickedSpec(InventoryMessages, failed, 1);
    PickedSpec(InventoryMessages, failed, 2);
    PickedSpec(InventoryMessages, failed, 3);
  }

  /** The GST message is reported exactly for a rate outside 0 to 100, the
      MRP message exactly for an MRP below the selling price. */
  lemma PricingSpec(data: ItemData)
    ensures var errors := Picked(PricingMessages, PricingFailures(data));
      && ("GST rate must be between 0 and 100" in errors <==>
            data.gstRate.Some? && !(0 <= data.gstRate.value <= 100))
      && ("MRP cannot be less than selling price" in errors <==> Less(data.mrp, data.sellingPrice))
  {
    var failed := PricingFailures(data);
    PickedSpec(PricingMessages, failed, 0);
    PickedSpec(PricingMessages, failed, 1);
  }

  /** The form is valid exactly when every check passes: both names are
      given, no amount or quantity is negative, the selling price is neither
      below the cost price nor above the MRP, and the GST rate lies in 0 to
      100 (missing numbers pass every check). */
  lemma FormValidIff(data: ItemData)
    ensures var errors := Picked(BasicMessages, BasicFailures(data))
      + Picked(InventoryMessages, InventoryFailures(data))
      + Picked(PricingMessages, PricingFailures(data));
      errors == [] <==>
        && !Blank(data.name) && !Blank(data.sku)
        && !Less(data.costPrice, Some(0)) && !Less(data.sellingPrice, Some(0))
        && !Less(data.sellingPrice, data.costPrice)
        && !Less(data.stockQty, Some(0)) && !Less(data.lowStockThreshold, Some(0))
        && !Less(data.reorderQuantity, Some(0)) && !Less(data.maxStockLevel, Some(0))
        && !(data.gstRate.Some? && !(0 <= data.gstRate.value <= 100))
        && !Less(data.mrp, data.sellingPrice)
  {
    BasicInfoSpec(data);
    InventorySpec(data);
    PricingSpec(data);
    var basic := Picked(BasicMessages, BasicFailures(data));
    var inventory := Picked(InventoryMessages, InventoryFailures(data));
    var pricing := Picked(PricingMessages, PricingFailures(data));
    PickedOnly(BasicMessages, BasicFailures(data));
    PickedOnly(InventoryMessages, InventoryFailures(data));
    PickedOnly(PricingMessages, PricingFailures(data));
    if basic != [] {
      assert basic[0] in basic;
    }
    if inventory != [] {
      assert inventory[0] in inventory;
    }
    if pricing != [] {
      assert pricing[0] in pricing;
    }
  }
}
