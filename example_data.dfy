/** The seeding script (example_data.py): five sample shipments, each inserted with
    `get_or_create` keyed on its BL number, so running the script again adds nothing.
    Dates are relative to the day the script runs; amounts are in cents. */
module ExampleData {
  import opened Text
  import opened Models
  import opened Views

  function Sample1(today: Day): Shipment {
    Shipment("BL2024001", "CONT001", Some("CH001"), "Maersk Line", "ABC Trading Company",
      "Global Exports Inc.", today + 5, None, 7, 2, true, 150000, 50000, 350000, "paid",
      20000, "Warehouse District A", "Express Logistics", true,
      "Electronics and computer components", 250, "John Smith", "approved")
  }

  function Sample2(today: Day): Shipment {
    Shipment("BL2024002", "CONT002", Some("CH002"), "MSC", "XYZ Manufacturing",
      "Industrial Suppliers Ltd", today + 10, None, 5, 0, false, 0, 75000, 420000, "pending",
      30000, "Industrial Zone B", "Heavy Haul Transport", false,
      "Raw materials for manufacturing", 500, "Sarah Johnson", "pending")
  }

  /** The one sample that has already left the terminal. */
  function Sample3(today: Day): Shipment {
    Shipment("BL2024003", "CONT003", Some("CH003"), "COSCO", "Retail Chain Corp",
      "Fashion Imports", today - 3, Some(today - 1), 10, 3, true, 80000, 30000, 280000, "paid",
      15000, "Distribution Center C", "City Transport", true,
      "Clothing and textiles", 1000, "Mike Davis", "completed")
  }

  function Sample4(today: Day): Shipment {
    Shipment("BL2024004", "CONT004", Some("CH004"), "Evergreen", "Food Distributors Inc",
      "Agricultural Exports Co", today + 15, None, 3, 0, false, 0, 40000, 320000, "not_paid",
      25000, "Cold Storage Facility", "Refrigerated Transport", false,
      "Canned goods and preserved foods", 800, "Lisa Wilson", "in_progress")
  }

  /** The one sample without a chassis number. */
  function Sample5(today: Day): Shipment {
    Shipment("BL2024005", "CONT005", None, "CMA CGM", "Auto Parts Direct",
      "Automotive Components Ltd", today + 7, None, 5, 1, true, 120000, 60000, 380000, "paid",
      18000, "Auto Service Center", "Automotive Logistics", true,
      "Car parts and automotive accessories", 300, "Robert Brown", "approved")
  }

  function SampleData(today: Day): (s: seq<Shipment>)
    ensures |s| == 5
  {
    [Sample1(today), Sample2(today), Sample3(today), Sample4(today), Sample5(today)]
  }

  lemma Sample1Valid(today: Day) ensures ValidRecord(Sample1(today)) {}
  lemma Sample2Valid(today: Day) ensures ValidRecord(Sample2(today)) {}
  lemma Sample3Valid(today: Day) ensures ValidRecord(Sample3(today)) {}
  lemma Sample4Valid(today: Day) ensures ValidRecord(Sample4(today)) {}
  lemma Sample5Valid(today: Day) ensures ValidRecord(Sample5(today)) {}

  /** Every sample satisfies the model's field constraints. */
  lemma SamplesValid(today: Day)
    ensures forall i :: 0 <= i < 5 ==> ValidRecord(SampleData(today)[i])
  {
    Sample1Valid(today);
    Sample2Valid(today);
    Sample3Valid(today);
    Sample4Valid(today);
    Sample5Valid(today);
  }

  /** The five BL numbers are distinct: they differ in their last digit. */
  lemma SamplesDistinct(today: Day)
    ensures UniqueBl(SampleData(today))
  {
    var s := SampleData(today);
    assert forall i :: 0 <= i < 5 ==> |s[i].blNumber| == 9 && s[i].blNumber[8] as int == '1' as int + i;
  }

  /** The loop of the script as a function of the table: the samples inserted in order,
      each only if its BL number is absent. */
  function SeedAll(rows: seq<Shipment>, samples: seq<Shipment>): seq<Shipment>
    decreases |samples|
  {
    if samples == [] then rows
    else
      var last := samples[|samples| - 1];
      InsertIfAbsent(SeedAll(rows, samples[..|samples| - 1]), last.blNumber, last)
  }

  lemma {:induction false} BlNumbersConcat(a: seq<Shipment>, b: seq<Shipment>)
    ensures BlNumbers(a + b) == BlNumbers(a) + BlNumbers(b)
  {
    var ab := a + b;
    assert forall i :: 0 <= i < |b| ==> ab[|a| + i] == b[i];
    assert forall i :: 0 <= i < |a| ==> ab[i] == a[i];
  }

  /** Seeding keeps BL numbers unique and adds exactly the samples' BL numbers. */
  lemma {:induction false} SeedBlNumbers(rows: seq<Shipment>, samples: seq<Shipment>)
    requires UniqueBl(rows)
    ensures UniqueBl(SeedAll(rows, samples))
    ensures BlNumbers(SeedAll(rows, samples)) == BlNumbers(rows) + BlNumbers(samples)
    decreases |samples|
  {
    if samples != [] {
      var init := samples[..|samples| - 1];
      var last := samples[|samples| - 1];
      SeedBlNumbers(rows, init);
      InsertIfAbsentKeepsUnique(SeedAll(rows, init), last.blNumber, last);
      assert samples == init + [last];
      BlNumbersConcat(init, [last]);
    }
  }

  /** Rows already present are left in place; at most one row is added per sample. */
  lemma {:induction false} SeedKeepsExisting(rows: seq<Shipment>, samples: seq<Shipment>)
    ensures |rows| <= |SeedAll(rows, samples)| <= |rows| + |samples|
    ensures SeedAll(rows, samples)[..|rows|] == rows
    decreases |samples|
  {
    if samples != [] {
      var init := samples[..|samples| - 1];
      SeedKeepsExisting(rows, init);
      var t := SeedAll(rows, init);
      var last := samples[|samples| - 1];
      assert (t + [last])[..|rows|] == t[..|rows|];
    }
  }

  /** Samples whose BL numbers are all present change nothing. */
  lemma {:induction false} SeedPresentIsNoop(rows: seq<Shipment>, samples: seq<Shipment>)
    requires BlNumbers(samples) <= BlNumbers(rows)
    ensures SeedAll(rows, samples) == rows
    decreases |samples|
  {
    if samples != [] {
      var init := samples[..|samples| - 1];
      var last := samples[|samples| - 1];
      assert samples == init + [last];
      BlNumbersConcat(init, [last]);
      SeedPresentIsNoop(rows, init);
    }
  }

  /** Running the script twice is the same as running it once. */
  lemma SeedIdempotent(rows: seq<Shipment>, samples: seq<Shipment>)
    requires UniqueBl(rows)
    ensures SeedAll(SeedAll(rows, samples), samples) == SeedAll(rows, samples)
  {
    SeedBlNumbers(rows, samples);
    SeedPresentIsNoop(SeedAll(rows, samples), samples);
  }

  /** Samples with distinct BL numbers none of which is present are all appended. */
  lemma {:induction false} SeedFreshAppends(rows: seq<Shipment>, samples: seq<Shipment>)
    requires UniqueBl(samples)
    requires BlNumbers(rows) !! BlNumbers(samples)
    ensures SeedAll(rows, samples) == rows + samples
    decreases |samples|
  {
    if samples != [] {
      var init := samples[..|samples| - 1];
      var last := samples[|samples| - 1];
      assert samples == init + [last];
      BlNumbersConcat(init, [last]);
      assert UniqueBl(init) by {
        assert forall i :: 0 <= i < |init| ==> init[i] == samples[i];
      }
      SeedFreshAppends(rows, init);
      BlNumbersConcat(rows, init);
      assert last.blNumber !in BlNumbers(init);
    }
  }

  /** On an empty database the script creates exactly the five samples. */
  lemma SeedEmptyTable(today: Day)
    ensures SeedAll([], SampleData(today)) == SampleData(today)
  {
    SamplesDistinct(today);
    SeedFreshAppends([], SampleData(today));
  }

  /** One `get_or_create` with valid defaults keeps the table valid. */
  lemma InsertKeepsValid(rows: seq<Shipment>, x: Shipment)
    requires ValidTable(rows) && ValidRecord(x)
    ensures ValidTable(InsertIfAbsent(rows, x.blNumber, x))
  {
    InsertIfAbsentKeepsUnique(rows, x.blNumber, x);
    var r := InsertIfAbsent(rows, x.blNumber, x);
    assert forall i :: 0 <= i < |r| ==> r[i] == x || r[i] == rows[i];
  }

  /** Valid rows and valid samples give a valid table. */
  lemma {:induction false} SeedKeepsValid(rows: seq<Shipment>, samples: seq<Shipment>)
    requires ValidTable(rows)
    requires forall i :: 0 <= i < |samples| ==> ValidRecord(samples[i])
    ensures ValidTable(SeedAll(rows, samples))
    decreases |samples|
  {
    if samples != [] {
      var init := samples[..|samples| - 1];
      assert forall i :: 0 <= i < |init| ==> init[i] == samples[i];
      SeedKeepsValid(rows, init);
      InsertKeepsValid(SeedAll(rows, init), samples[|samples| - 1]);
    }
  }

  /** The seeded sample that has already left is not overdue although its ETA has passed. */
  lemma DeliveredSampleOnTime(today: Day)
    ensures Sample3(today).eta < today && !IsOverdue(Sample3(today), today)
    ensures DaysOverdue(Sample3(today), today) == 0
  {
  }

  /** The sample without a chassis number answers only to its BL and container
      numbers, and its reply shows "N/A" for the chassis. */
  lemma ChasslessSampleLookup(today: Day, q: string)
    ensures Matches(Sample5(today), q) <==> IEquals("BL2024005", q) || IEquals("CONT005", q)
    ensures !Matches(Sample5(today), "CH005")
    ensures BuildPayload(Sample5(today), today).chassisNo == "N/A"
  {
    assert |Fold("CH005")| == 5;
  }

  /** A sample still at the terminal becomes overdue the day after its ETA. */
  lemma SampleOverdueAfterEta(today: Day)
    ensures !IsOverdue(Sample1(today), today + 5)
    ensures IsOverdue(Sample1(today), today + 6) && DaysOverdue(Sample1(today), today + 6) == 1
  {
  }

  /** The loop of the script over any list of samples with distinct BL numbers;
      `created[i]` is true exactly when sample `i`'s BL number was not in the table. */
  method SeedSamples(table: ShipmentTable, samples: seq<Shipment>) returns (created: seq<bool>)
    requires table.Valid() && UniqueBl(samples)
    modifies table
    ensures table.Valid()
    ensures table.rows == SeedAll(old(table.rows), samples)
    ensures |created| == |samples|
    ensures forall i :: 0 <= i < |samples| ==>
              (created[i] <==> samples[i].blNumber !in BlNumbers(old(table.rows)))
  {
    ghost var before := table.rows;
    created := [];
    var i := 0;
    while i < |samples|
      invariant 0 <= i <= |samples|
      invariant table.Valid()
      invariant table.rows == SeedAll(before, samples[..i])
      invariant |created| == i
      invariant forall k :: 0 <= k < i ==> (created[k] <==> samples[k].blNumber !in BlNumbers(before))
    {
      SeedBlNumbers(before, samples[..i]);
      assert samples[i].blNumber !in BlNumbers(samples[..i]);
      var _, c := table.GetOrCreate(samples[i].blNumber, samples[i]);
      assert samples[..i + 1][..i] == samples[..i];
      created := created + [c];
      i := i + 1;
    }
    assert samples[..i] == samples;
  }

  /** The script itself: the five samples, in order. */
  method Seed(table: ShipmentTable, today: Day) returns (created: seq<bool>)
    requires table.Valid()
    modifies table
    ensures table.Valid()
    ensures table.rows == SeedAll(old(table.rows), SampleData(today))
    ensures |created| == 5
    ensures forall i :: 0 <= i < 5 ==>
              (created[i] <==> SampleData(today)[i].blNumber !in BlNumbers(old(table.rows)))
  {
    SamplesDistinct(today);
    created := SeedSamples(table, SampleData(today));
  }
}
