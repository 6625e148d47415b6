/**
 * The nested `State` field resolvers `tradeSummary`, `employmentSummary` and
 * `productionSummary`. Each resolver's upstream call is replaced by its result:
 * the `data` array of records, passed in as `results`.
 */
module Resolvers {
  import opened Wrappers
  import opened Aggregation
  import opened StatesQuery

  // ---------------------------------------------------------------------------
  // tradeSummary
  // ---------------------------------------------------------------------------

  /** One interstate trade record: shipments from the origin state to one destination. */
  datatype TradeRecord = TradeRecord(
    millionsOfDollars: real,
    thousandsOfTons: real,
    origin: string,
    idOrigin: string,
    destinationState: string,
    idDestinationState: string)

  function TradeDollars(r: TradeRecord): real { r.millionsOfDollars }
  function TradeTons(r: TradeRecord): real { r.thousandsOfTons }
  function TradeDestination(r: TradeRecord): string { r.destinationState }

  datatype InterstateTradeSummary = InterstateTradeSummary(
    name: string,
    totalDollarAmount: real,
    totalTons: real,
    statesByDollars: seq<Entry>,
    statesByTons: seq<Entry>)

  /**
   * `tradeSummary`: the two totals, and the destinations paired with each measure,
   * stably sorted by that measure.
   */
  function TradeSummary(parent: State, results: seq<TradeRecord>): (s: InterstateTradeSummary)
    ensures s.name == parent.name
    ensures IsStableSortOf(s.statesByDollars, Project(results, TradeDestination, TradeDollars))
    ensures IsStableSortOf(s.statesByTons, Project(results, TradeDestination, TradeTons))
  {
    InterstateTradeSummary(
      parent.name,
      SumBy(results, TradeDollars),
      SumBy(results, TradeTons),
      SortByAmount(Project(results, TradeDestination, TradeDollars)),
      SortByAmount(Project(results, TradeDestination, TradeTons)))
  }

  /**
   * The totals are sums: 0 with no records, the record's own measures for one
   * record, and additive over a split of the records.
   */
  lemma TradeTotals(parent: State, a: seq<TradeRecord>, b: seq<TradeRecord>, r: TradeRecord)
    ensures TradeSummary(parent, []).totalDollarAmount == 0.0 && TradeSummary(parent, []).totalTons == 0.0
    ensures TradeSummary(parent, [r]).totalDollarAmount == r.millionsOfDollars
    ensures TradeSummary(parent, [r]).totalTons == r.thousandsOfTons
    ensures TradeSummary(parent, a + b).totalDollarAmount
         == TradeSummary(parent, a).totalDollarAmount + TradeSummary(parent, b).totalDollarAmount
    ensures TradeSummary(parent, a + b).totalTons
         == TradeSummary(parent, a).totalTons + TradeSummary(parent, b).totalTons
  {
    assert [r][..0] == [];
    SumByAppend(a, b, TradeDollars);
    SumByAppend(a, b, TradeTons);
  }

  /** Each total is the sum of the amounts in the matching sorted list. */
  lemma TradeTotalsMatchLists(parent: State, results: seq<TradeRecord>)
    ensures var s := TradeSummary(parent, results);
      && s.totalDollarAmount == SumBy(s.statesByDollars, AmountOf)
      && s.totalTons == SumBy(s.statesByTons, AmountOf)
  {
    ProjectSum(results, TradeDestination, TradeDollars);
    ProjectSum(results, TradeDestination, TradeTons);
    SortByAmountSum(Project(results, TradeDestination, TradeDollars));
    SortByAmountSum(Project(results, TradeDestination, TradeTons));
  }

  // ---------------------------------------------------------------------------
  // employmentSummary
  // ---------------------------------------------------------------------------

  /** One employment record: an industry group in the state. */
  datatype EmploymentRecord = EmploymentRecord(
    industryGroup: string,
    totalPopulation: real,
    averageWage: real,
    geography: string)

  function Population(r: EmploymentRecord): real { r.totalPopulation }
  function AverageWage(r: EmploymentRecord): real { r.averageWage }

  /** Fields are `None` where the source reads a property of an undefined `maxBy` result. */
  datatype IndustryByEmployee = IndustryByEmployee(industry: Option<string>, employedCount: Option<real>)
  datatype IndustryByAverageSalary = IndustryByAverageSalary(industry: Option<string>, averageSalary: Option<real>)

  datatype EmploymentSummary = EmploymentSummary(
    topIndustryByEmployee: IndustryByEmployee,
    topIndustryByAverageSalary: IndustryByAverageSalary)

  function EmployeeFields(top: Option<EmploymentRecord>): IndustryByEmployee
  {
    match top
    case None => IndustryByEmployee(None, None)
    case Some(r) => IndustryByEmployee(Some(r.industryGroup), Some(r.totalPopulation))
  }

  function SalaryFields(top: Option<EmploymentRecord>): IndustryByAverageSalary
  {
    match top
    case None => IndustryByAverageSalary(None, None)
    case Some(r) => IndustryByAverageSalary(Some(r.industryGroup), Some(r.averageWage))
  }

  /**
   * `employmentSummary`: for each of the two measures, independently, the industry of
   * the first record with the largest value; every field is undefined without records.
   */
  function EmploymentSummaryOf(results: seq<EmploymentRecord>): (s: EmploymentSummary)
    ensures results == [] ==>
      && s.topIndustryByEmployee == IndustryByEmployee(None, None)
      && s.topIndustryByAverageSalary == IndustryByAverageSalary(None, None)
    ensures results != [] ==> exists i :: (IsFirstMax(results, Population, i) &&
      s.topIndustryByEmployee == IndustryByEmployee(Some(results[i].industryGroup), Some(results[i].totalPopulation)))
    ensures results != [] ==> exists i :: (IsFirstMax(results, AverageWage, i) &&
      s.topIndustryByAverageSalary == IndustryByAverageSalary(Some(results[i].industryGroup), Some(results[i].averageWage)))
  {
    var maxByEmployee := MaxBy(results, Population);
    var maxBySalary := MaxBy(results, AverageWage);
    EmploymentSummary(EmployeeFields(maxByEmployee), SalaryFields(maxBySalary))
  }

  /** Of `[A: 5, B: 9, C: 9]` the top industry is `B`, the first of the two largest. */
  lemma EmploymentTieExample()
    ensures
      var rs := [EmploymentRecord("A", 5.0, 1.0, "Virginia"),
                 EmploymentRecord("B", 9.0, 1.0, "Virginia"),
                 EmploymentRecord("C", 9.0, 1.0, "Virginia")];
      EmploymentSummaryOf(rs).topIndustryByEmployee == IndustryByEmployee(Some("B"), Some(9.0))
  {
    var rs := [EmploymentRecord("A", 5.0, 1.0, "Virginia"),
               EmploymentRecord("B", 9.0, 1.0, "Virginia"),
               EmploymentRecord("C", 9.0, 1.0, "Virginia")];
    assert Population(rs[0]) == 5.0 && Population(rs[1]) == 9.0 && Population(rs[2]) == 9.0;
    assert IsFirstMax(rs, Population, 1);
    var i :| IsFirstMax(rs, Population, i) &&
      EmploymentSummaryOf(rs).topIndustryByEmployee == IndustryByEmployee(Some(rs[i].industryGroup), Some(rs[i].totalPopulation));
    FirstMaxUnique(rs, Population, i, 1);
  }

  // ---------------------------------------------------------------------------
  // productionSummary
  // ---------------------------------------------------------------------------

  /** One production record: shipments of one SCTG2 commodity group from the state. */
  datatype ProductionRecord = ProductionRecord(
    sctg2: string,
    millionsOfDollars: real,
    thousandsOfTons: real,
    origin: string)

  function ProductionDollars(r: ProductionRecord): real { r.millionsOfDollars }
  function ProductionTons(r: ProductionRecord): real { r.thousandsOfTons }
  function ProductionType(r: ProductionRecord): string { r.sctg2 }

  datatype ProductionSummary = ProductionSummary(
    name: string,
    totalDollarAmount: real,
    totalTons: real,
    productionTypeByDollars: seq<Entry>,
    productionTypeByTons: seq<Entry>)

  /**
   * `productionSummary`: the two totals, and the commodity groups paired with each
   * measure in source order; unlike `tradeSummary` nothing is sorted.
   */
  function ProductionSummaryOf(parent: State, results: seq<ProductionRecord>): (s: ProductionSummary)
    ensures s.name == parent.name
    ensures |s.productionTypeByDollars| == |results| && |s.productionTypeByTons| == |results|
    ensures forall i :: 0 <= i < |results| ==>
      && s.productionTypeByDollars[i] == Entry(results[i].sctg2, results[i].millionsOfDollars)
      && s.productionTypeByTons[i] == Entry(results[i].sctg2, results[i].thousandsOfTons)
  {
    ProductionSummary(
      parent.name,
      SumBy(results, ProductionDollars),
      SumBy(results, ProductionTons),
      Project(results, ProductionType, ProductionDollars),
      Project(results, ProductionType, ProductionTons))
  }

  /** The production totals are sums in the same sense as the trade totals. */
  lemma ProductionTotals(parent: State, a: seq<ProductionRecord>, b: seq<ProductionRecord>, r: ProductionRecord)
    ensures ProductionSummaryOf(parent, []).totalDollarAmount == 0.0
    ensures ProductionSummaryOf(parent, []).totalTons == 0.0
    ensures ProductionSummaryOf(parent, [r]).totalDollarAmount == r.millionsOfDollars
    ensures ProductionSummaryOf(parent, [r]).totalTons == r.thousandsOfTons
    ensures ProductionSummaryOf(parent, a + b).totalDollarAmount
         == ProductionSummaryOf(parent, a).totalDollarAmount + ProductionSummaryOf(parent, b).totalDollarAmount
    ensures ProductionSummaryOf(parent, a + b).totalTons
         == ProductionSummaryOf(parent, a).totalTons + ProductionSummaryOf(parent, b).totalTons
  {
    assert [r][..0] == [];
    SumByAppend(a, b, ProductionDollars);
    SumByAppend(a, b, ProductionTons);
  }

  /** Each production total is the sum of the amounts in the matching list. */
  lemma ProductionTotalsMatchLists(parent: State, results: seq<ProductionRecord>)
    ensures var s := ProductionSummaryOf(parent, results);
      && s.totalDollarAmount == SumBy(s.productionTypeByDollars, AmountOf)
      && s.totalTons == SumBy(s.productionTypeByTons, AmountOf)
  {
    ProjectSum(results, ProductionType, ProductionDollars);
    ProjectSum(results, ProductionType, ProductionTons);
  }

  /**
   * The asymmetry between the two resolvers: the same shipments give the trade
   * list in ascending order and the production list in source order.
   */
  lemma SortingAsymmetry(parent: State)
    ensures
      var trade := [TradeRecord(2.0, 1.0, "Virginia", "04000US51", "Ohio", "04000US39"),
                    TradeRecord(1.0, 1.0, "Virginia", "04000US51", "Iowa", "04000US19")];
      var production := [ProductionRecord("Ohio", 2.0, 1.0, "Virginia"),
                         ProductionRecord("Iowa", 1.0, 1.0, "Virginia")];
      && TradeSummary(parent, trade).statesByDollars == [Entry("Iowa", 1.0), Entry("Ohio", 2.0)]
      && ProductionSummaryOf(parent, production).productionTypeByDollars == [Entry("Ohio", 2.0), Entry("Iowa", 1.0)]
  {
    var trade := [TradeRecord(2.0, 1.0, "Virginia", "04000US51", "Ohio", "04000US39"),
                  TradeRecord(1.0, 1.0, "Virginia", "04000US51", "Iowa", "04000US19")];
    var ohio, iowa := Entry("Ohio", 2.0), Entry("Iowa", 1.0);
    assert Project(trade, TradeDestination, TradeDollars) == [ohio, iowa];
    assert [ohio, iowa][1..] == [iowa];
    assert SortByAmount([iowa]) == [iowa] by {
      assert [iowa][1..] == [];
    }
    assert Insert(ohio, [iowa]) == [iowa, ohio] by {
      assert [iowa][1..] == [];
    }
  }
}
