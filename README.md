# Import-margin decision core, modelled in Dafny

This project models the decision logic of a UK import-margin dashboard. The
system estimates the landed cost and profit margin of an import scenario.
It then sweeps the scenario over a grid of FX shocks and shipping costs,
classifies the margin into a risk tier, and escalates that tier when official
(ONS) trade statistics cover the commodity poorly. It also widens its profit
figures into confidence bands whose width depends on that coverage. A data
pipeline maps HMRC commodity codes (HS2 chapters) to ONS SITC sections and
gives every chapter a coverage class.

Each source file of the core has one Dafny module; `Optional` and `Lookup` are shared helpers with no source file of their own:

- `Optional` (optional.dfy): `Option` and `Result`.
- `Lookup` (lookup.dfy): `FirstWhere`, the `df[df[column] == k].iloc[0]` lookup that data_merge.py and app.py both use.
- `CoverageClasses` (coverage_classes.dfy): the four coverage classes, their labels, and `classify_coverage`.
- `RiskTiers` (risk_tiers.dfy): `risk_label`.
- `RiskAdjuster` (risk_adjuster.dfy): `adjust_risk`.
- `ConfidenceBands` (confidence_bands.dfy): `confidence_multiplier` and `compute_confidence_band`.
- `MarginModel` (margin_model.dfy): `compute_margin`.
- `ScenarioRunner` (scenario_runner.dfy): `run_sensitivity_scenarios`, as methods with loop invariants over the growing row list.
- `DataMerge` (data_merge.dfy): the HS2-to-SITC tables, the ONS name parsers, `get_hs2_chapter`, the country-code filter of `prepare_hmrc`, and `create_hs2_coverage_from_sitc` (a method with a loop).
- `Dashboard` (dashboard.dfy): the parts of `app.py` that decide something. These are `get_commodity_info`, the margin coercion, the risk pipeline, and the band columns. The band columns are a class whose method adds them in place.

Money and percentages are `real`, so the model has no floating-point
rounding. A missing value (Python `None`, or a pandas NaN in a cell that is
modelled) is `Option.None`. Coverage and risk labels are plain strings where
the source passes strings; `Parse`, `ParseTier`, `Label` and `Name` connect
them to the datatypes.

## Model

| member | source | states |
|---|---|---|
| MarginModel.CostsFromGoods | fyp-project/scripts/margin_model.py:32-45 | Shipping, insurance and tariff are the goods cost times their fractions. Landed cost is the smaller of the four-line sum and twice the import value. Profit is the larger of revenue minus landed cost and minus the import value. |
| MarginModel.ComputeCosts | fyp-project/scripts/margin_model.py:29-45 | The goods cost is the import value times (1 + FX shock); every other line is derived from it as above. |
| MarginModel.MarginPct | fyp-project/scripts/margin_model.py:48-52 | A margin exists iff revenue > 0. It is at least profit/revenue x 100 and at least -100, and equals one of the two. |
| MarginModel.ComputeMargin | fyp-project/scripts/margin_model.py:4-52 | Profit >= -import value and landed cost <= 2 x import value. The margin exists iff revenue > 0 and is then >= -100. |
| MarginModel.LandedCostBelowCap | fyp-project/scripts/margin_model.py:37-41 | Below the cap, landed cost equals the sum of the four cost lines. |
| MarginModel.ProfitAntitoneInCostLines | fyp-project/scripts/margin_model.py:37-45 | A larger uncapped cost-line sum gives no larger profit and no smaller landed cost. |
| MarginModel.ProfitNonIncreasingInCostFractions | fyp-project/scripts/margin_model.py:32-45 | With import value >= 0 and FX >= -1, raising shipping, insurance or tariff never raises profit. |
| MarginModel.ProfitNonIncreasingInFractionsOfGoods | fyp-project/scripts/margin_model.py:32-45 | The same for any non-negative goods cost. |
| MarginModel.ProfitNonIncreasingInGoodsCost | fyp-project/scripts/margin_model.py:29-45 | When the fractions do not sum below -1, a larger goods cost never raises profit. |
| MarginModel.ProfitNonIncreasingInFx | fyp-project/scripts/margin_model.py:29-45 | With import value >= 0 and cost fractions that do not sum below -1, a larger FX shock never raises profit. |
| MarginModel.ProfitConstantAtCap | fyp-project/scripts/margin_model.py:40-45 | Any two scenarios both at the landed-cost cap have the same profit. |
| MarginModel.MarginMonotoneInProfit | fyp-project/scripts/margin_model.py:48-50 | For positive revenue the margin never falls as profit rises. |
| MarginModel.ZeroImportValue | fyp-project/scripts/margin_model.py:29-45 | A zero import value makes every cost line and the landed cost 0, and profit is max(revenue, 0). |
| MarginModel.WorkedExampleCosts | fyp-project/scripts/margin_model.py:29-49 | (1,000,000, 1,350,000, 0, 5%, 1%, 2%) gives landed cost 1,080,000, profit 270,000 and margin 20. |
| MarginModel.WorkedExampleFx | fyp-project/scripts/margin_model.py:29-49 | A 10% FX shock alone gives goods cost 1,100,000, profit 250,000 and margin 500/27. |
| MarginModel.GoodsCost | fyp-project/scripts/margin_model.py:29 | With no FX shock the goods cost is the import value; a -100% shock makes it 0. |
| MarginModel.GoodsCostMonotone | fyp-project/scripts/margin_model.py:29 | With import value >= 0, the goods cost grows with the FX shock. |
| ScenarioRunner.EvenlySpaced | fyp-project/scripts/scenario_runner.py:34-41 | There are max(steps, 0) samples (SampleCount), and sample i is lo + i(hi - lo)/(steps - 1). |
| ScenarioRunner.EvenlySpacedEndpoints | fyp-project/scripts/scenario_runner.py:34-41 | For steps >= 2 the first sample is lo, the last is hi, and consecutive samples are (hi - lo)/(steps - 1) apart. |
| ScenarioRunner.EvenlySpacedAscending | fyp-project/scripts/scenario_runner.py:34-41 | With lo <= hi the samples ascend. |
| ScenarioRunner.SampleStep | fyp-project/scripts/scenario_runner.py:35 | Consecutive samples differ by one step. |
| ScenarioRunner.SampleMonotone | fyp-project/scripts/scenario_runner.py:35 | A later sample index gives no smaller sample when lo <= hi. |
| ScenarioRunner.RowFor | fyp-project/scripts/scenario_runner.py:47-59 | A row reports fx x 100 and ship x 100, with the profit and margin compute_margin gives for that pair under the fixed tariff and insurance. |
| ScenarioRunner.SweepAt | fyp-project/scripts/scenario_runner.py:46-60 | One inner loop yields one row per shipping value, in order. |
| ScenarioRunner.GridLength | fyp-project/scripts/scenario_runner.py:44-60 | The grid has one row per (FX, shipping) pair. |
| ScenarioRunner.GridAtPair | fyp-project/scripts/scenario_runner.py:45-60 | Row a x len(ships) + b is the pair (fxs[a], ships[b]). |
| ScenarioRunner.GridAtIndex | fyp-project/scripts/scenario_runner.py:45-60 | Row k is the pair (fxs[k / len(ships)], ships[k % len(ships)]). Its helper RowMajorSplit splits k into that outer and inner index. |
| ScenarioRunner.GridAt | fyp-project/scripts/scenario_runner.py:45-60 | The same for every row: FX is the outer loop, shipping the inner. |
| ScenarioRunner.SquareGridAt | fyp-project/scripts/scenario_runner.py:34-60 | On the steps x steps grid, a non-empty grid means steps >= 2, and row k is (fxs[k / steps], ships[k % steps]). |
| ScenarioRunner.SweepGrid | fyp-project/scripts/scenario_runner.py:44-60 | The nested loops build exactly the FX-outer, shipping-inner grid of RowFor rows. |
| ScenarioRunner.SensitivityGridAt | fyp-project/scripts/scenario_runner.py:34-60 | The grid over the two sample lists has steps x steps rows, and row k is RowFor(fx_values[k / steps], ship_values[k % steps]). |
| ScenarioRunner.RunSensitivityScenarios | fyp-project/scripts/scenario_runner.py:8-62 | It fails (division by zero) iff steps == 1. Otherwise it returns steps x steps rows (none for steps <= 0), and row k is RowFor(fx_values[k / steps], ship_values[k % steps]). |
| ScenarioRunner.DefaultAxes | fyp-project/scripts/scenario_runner.py:11-13 | The defaults give FX -10, -8, ..., 10 and shipping 0, 3, ..., 30 as percentages. |
| RiskTiers.RiskLabel | fyp-project/scripts/risk_label.py:17-22 | HIGH iff the margin is missing or < 5; MODERATE iff 5 <= m < 10; LOW iff m >= 10. |
| RiskTiers.RiskLabelAntitone | fyp-project/scripts/risk_label.py:17-22 | A larger margin never gives a riskier tier. |
| RiskTiers.MissingMarginIsWorst | fyp-project/scripts/risk_label.py:17-18 | A missing margin is at least as risky as any margin. |
| RiskTiers.ParseTier | fyp-project/scripts/risk_adjuster.py:22-35 | It recognises exactly the three tier names. |
| RiskAdjuster.PoorCoverage | fyp-project/scripts/risk_adjuster.py:26-32 | Coverage is poor iff it is a recognised class ranked no higher than Low coverage. |
| RiskAdjuster.AdjustRisk | fyp-project/scripts/risk_adjuster.py:22-35 | The tier never falls and rises at most one step. It changes iff it is not HIGH and coverage is "No coverage" or "Low coverage". |
| RiskAdjuster.AdjustRiskLabel | fyp-project/scripts/risk_adjuster.py:5-37 | On the three tier names it agrees with AdjustRisk on the parsed coverage. Any other text is returned unchanged. |
| RiskAdjuster.AdjustRiskMonotone | fyp-project/scripts/risk_adjuster.py:22-35 | A riskier base tier stays at least as risky after adjustment. |
| RiskAdjuster.AdjustRiskAntitoneInCoverage | fyp-project/scripts/risk_adjuster.py:26-35 | Better coverage never gives a riskier adjusted tier. |
| CoverageClasses.Parse | fyp-project/scripts/confidence_band.py:18-24 | It recognises exactly the four coverage labels. |
| CoverageClasses.ParseLabel | fyp-project/scripts/confidence_band.py:18-23 | Every label is recognised as its own class. |
| CoverageClasses.ClassifyCoverage | fyp-project/scripts/classify_ons_coverage_by_commodity.py:18-30 | No iff pct == 0; Low iff pct != 0 and pct <= 40; Partial iff 40 < pct <= 80; High iff pct > 80. |
| CoverageClasses.ClassifyCoverageMonotone | fyp-project/scripts/classify_ons_coverage_by_commodity.py:18-30 | On non-negative percentages, more coverage never gives a lower class. |
| CoverageClasses.ClassifyCoverageNegativeNotMonotone | fyp-project/scripts/classify_ons_coverage_by_commodity.py:23-26 | A negative percentage ranks above 0%. |
| ConfidenceBands.ConfidenceMultiplier | fyp-project/scripts/confidence_band.py:18-24 | 0.40, 0.25, 0.15 and 0.05 for No, Low, Partial and High coverage; 0.30 otherwise; always between 0.05 and 0.40. |
| ConfidenceBands.MultiplierStrictlyDecreasing | fyp-project/scripts/confidence_band.py:18-23 | Better coverage gives a strictly smaller multiplier. |
| ConfidenceBands.FallbackIsPessimistic | fyp-project/scripts/confidence_band.py:18-24 | The 0.30 fallback lies between No coverage and every other class. |
| ConfidenceBands.ComputeConfidenceBand | fyp-project/scripts/confidence_band.py:34-37 | The bounds are profit(1 - m) and profit(1 + m). They average to the profit and bracket it, in an order fixed by the profit's sign. |
| ConfidenceBands.BandExample | fyp-project/scripts/confidence_band.py:34-37 | Profit 100,000 with High coverage gives (95,000, 105,000). |
| DataMerge.SitcOf | fyp-project/scripts/data_merge.py:20-42 | HS2_TO_SITC.get, written range by range. SitcOfTable states its value at every chapter, ChapterIsKey its keys, and EverySectionNamed and NoChapterMapsToOils its range (0..9, never 4). |
| DataMerge.SitcOfTable | fyp-project/scripts/data_merge.py:20-42 | Every entry of HS2_TO_SITC, one clause per run of the literal: 1-21, 23 to 0; 22, 24 to 1; 25-26, 41 to 2; 27 to 3; 28-38 to 5; 39-40, 44-48, 50-60, 66-70, 72-76, 78-83 to 6; 84-89 to 7; 42-43, 49, 61-65, 71, 90-97 to 8; 99 to 9. 77, 98 and every chapter outside 1..99 get none. |
| DataMerge.SitcNameOf | fyp-project/scripts/data_merge.py:151 | SITC_NAMES.get gives a name iff the section is a key. |
| DataMerge.Hs2ChapterAt | fyp-project/scripts/data_merge.py:20-42 | Key i of HS2_TO_SITC is i + 1 up to chapter 76, then i + 2 up to 97, then 99, and every key has a section. |
| DataMerge.Hs2ChaptersAreTheTableKeys | fyp-project/scripts/data_merge.py:20-42 | Hs2Chapters, the key list built from Range(1, 77), Range(78, 98) and 99, is HS2_TO_SITC's: 97 keys, in ascending order: exactly 1..99 other than 77 and 98. |
| DataMerge.ChapterIsKey | fyp-project/scripts/data_merge.py:20-42 | A chapter is a key of HS2_TO_SITC iff the table gives it a section. |
| DataMerge.SitcNamesCoverAllSections | fyp-project/scripts/data_merge.py:45-56 | SITC_NAMES has exactly the sections 0..9. |
| DataMerge.EverySectionNamed | fyp-project/scripts/data_merge.py:20-56 | Every section HS2_TO_SITC yields is in 0..9 and has a name. |
| DataMerge.NoChapterMapsToOils | fyp-project/scripts/data_merge.py:20-42 | No chapter maps to section 4. |
| DataMerge.IsUpper | fyp-project/scripts/data_merge.py:64 | str.isupper is false on the empty string and true on any non-empty run of capital letters. |
| DataMerge.FirstToken | fyp-project/scripts/data_merge.py:63 | The token is the prefix before the first space, or the whole string if it has none. |
| DataMerge.TrimStart | fyp-project/scripts/data_merge.py:74 | The result is no longer than the input and does not start with whitespace. |
| DataMerge.TrimStartDropsSpaces | fyp-project/scripts/data_merge.py:74 | TrimStart keeps a suffix of the input, and every character it drops is whitespace. |
| DataMerge.TrimEnd | fyp-project/scripts/data_merge.py:74 | The result is no longer than the input and does not end with whitespace. |
| DataMerge.TrimEndDropsSpaces | fyp-project/scripts/data_merge.py:74 | TrimEnd keeps a prefix of the input, and every character it drops is whitespace. |
| DataMerge.LeadingSpaces | fyp-project/scripts/data_merge.py:74 | The count of leading characters strip() removes: all of them are whitespace, and the next character, if any, is not. |
| DataMerge.Strip | fyp-project/scripts/data_merge.py:74 | Whitespace is IsSpace: the space, the ASCII controls 9-13 and the separators 28-31, which str.isspace also counts. The result is the slice after the leading whitespace, and neither starts nor ends with whitespace. Only whitespace follows it. |
| DataMerge.ExtractCountryCode | fyp-project/scripts/data_merge.py:59-66 | A code is returned iff the name is present and its first two characters are upper case and space-free, followed by a space or the end. The code is those two characters. |
| DataMerge.CountryCodeExample | fyp-project/scripts/data_merge.py:59-66 | "AE United Arab Emirates" gives "AE". |
| DataMerge.CountryCodeRejected | fyp-project/scripts/data_merge.py:59-66 | "Total" and the lower-case "ae United Arab Emirates" give no code. |
| DataMerge.DigitInCountryCodeAccepted | fyp-project/scripts/data_merge.py:64 | "A1 Somewhere" gives "A1", since isupper ignores the digit. |
| DataMerge.ExtractMainSitcSection | fyp-project/scripts/data_merge.py:69-84 | A section is returned iff the stripped name starts with a digit; it is that digit (0..9); the regex `\d` is IsDigit. This shows the totals check (`str.startswith`, StartsWith) adds nothing. |
| DataMerge.SitcSectionExamples | fyp-project/scripts/data_merge.py:69-84 | "01 Meat" gives 0 and "T Total" gives none. |
| DataMerge.SitcSectionStripped | fyp-project/scripts/data_merge.py:74-83 | " 7 Machinery " gives 7. |
| DataMerge.DecimalString | fyp-project/scripts/data_merge.py:143 | str(n) is a non-empty run of digits (IsDigit), at least two long for n >= 10, with no leading zero for n > 0. |
| DataMerge.DigitsValue | fyp-project/scripts/data_merge.py:143 | int() of a digit string: 0 for none, the digit for one, 10 x first + second for two. |
| DataMerge.DigitsValueOfDecimalString | fyp-project/scripts/data_merge.py:143 | int(str(n)) == n. |
| DataMerge.LeadingTwoDigits | fyp-project/scripts/data_merge.py:143 | The arithmetic leading two digits of n >= 10 lie in 10..99. |
| DataMerge.DecimalPrefixIsLeadingDigits | fyp-project/scripts/data_merge.py:143 | int(str(n)[:2]) equals the arithmetic leading two digits of n. |
| DataMerge.Hs2Chapter | fyp-project/scripts/data_merge.py:138-145 | A code below 100 is its own chapter. A larger code gives its leading two digits (10..99). A code int() rejects gives none. |
| DataMerge.Hs2ChapterExamples | fyp-project/scripts/data_merge.py:138-145 | 85 gives 85 and 84713000 gives 84. 1012100 (a chapter-01 code that lost its leading zero) gives 10. |
| DataMerge.ValidCountryCode | fyp-project/scripts/data_merge.py:131-134 | A code passes the notna and isin filters iff it is present and none of YY, ZZ, XX, "" and UNK. |
| DataMerge.KeepValid | fyp-project/scripts/data_merge.py:131-134 | The filtered rows are no more than the input rows; KeepValidConcat and KeepValidMembership say which rows and in what order. |
| DataMerge.KeepValidConcat | fyp-project/scripts/data_merge.py:131-134 | The filter works row by row: the rows kept from a + b are those kept from a followed by those kept from b, and a single row is kept iff its code is valid. So the kept rows are the valid rows, in input order and with their multiplicity. |
| DataMerge.KeepValidMembership | fyp-project/scripts/data_merge.py:131-134 | A row is kept iff it is an input row whose code is present and not one of YY, ZZ, XX, "" or UNK. |
| DataMerge.Prepare | fyp-project/scripts/data_merge.py:147-151 | The chapter is get_hs2_chapter of the commodity. A section exists iff the chapter is a table key, and it is the table's section. A name exists iff a section exists, and it is SITC_NAMES of that section. Year and value pass through unchanged. |
| DataMerge.PrepareHmrc | fyp-project/scripts/data_merge.py:131-151 | The output is the prepared form of exactly the kept rows, in order, and no output row has a placeholder code. |
| DataMerge.ClassifySitcCoverage | fyp-project/scripts/data_merge.py:266-273 | High iff pct >= 80; Partial iff 50 <= pct < 80; Low iff 0 < pct < 50; No iff pct <= 0. |
| DataMerge.ClassifySitcCoverageMonotone | fyp-project/scripts/data_merge.py:266-273 | More coverage never gives a lower class. |
| DataMerge.ClassifiersDisagree | fyp-project/scripts/data_merge.py:266-273 | The two classifiers differ at 45%, at 80% and at -1%. |
| DataMerge.ClassifiersAgreeOnZero | fyp-project/scripts/data_merge.py:261-273 | Both classify 0% as No coverage. |
| DataMerge.ChapterCoverage | fyp-project/scripts/data_merge.py:252-284 | A section without an ONS row gives 0%, "No coverage", 0 covered years and its SITC_NAMES name ("Unknown" without one). Otherwise the first row's percentage, years and name are used. The class is always the inline classifier's label. |
| DataMerge.CoverageRowsExtend | fyp-project/scripts/data_merge.py:249-284 | Appending the next chapter's ChapterCoverage row keeps the rows built so far equal to the per-chapter coverage of the leading table keys. |
| DataMerge.CreateHs2CoverageFromSitc | fyp-project/scripts/data_merge.py:243-287 | Exactly one row per HS2_TO_SITC key, in table order and strictly ascending by commodity. Each row is that chapter's ChapterCoverage. |
| DataMerge.Hs2CoverageSorted | fyp-project/scripts/data_merge.py:286-287 | Rows in table order are strictly ascending, so the sort by commodity changes nothing. The commodities present are exactly the table keys. |
| Lookup.FirstWhere | fyp-project/scripts/data_merge.py:252-255 | No element iff no element has the key; otherwise the earliest element with it. app.py:258-261 uses the same lookup. |
| Dashboard.GetOr | fyp-project/app.py:263-268 | Series.get gives the column's value, or the default when the column is absent. |
| Dashboard.GetCommodityInfo | fyp-project/app.py:256-278 | A commodity with no record gets "Unknown", "No coverage", 0% and 0/0 years. Otherwise the first record for it gives the SITC category, class, percentage, total years and covered years, each with its default ("Unknown", "No coverage", 0.0, 0, 0) when the column is absent. The description comes from the description map, else "Unknown". |
| Dashboard.MissingCommodityIsPoorlyCovered | fyp-project/app.py:270-278 | A commodity with no record parses as No coverage, which the risk rule treats as poor. |
| Dashboard.DisplayMargin | fyp-project/app.py:429 | A missing margin becomes 0.0; a present one is kept. |
| Dashboard.DisplayMarginKeepsTier | fyp-project/app.py:429-437 | The coercion never changes the risk tier, since a missing margin and 0.0 are both HIGH. |
| Dashboard.AssessRisk | fyp-project/app.py:429-439 | base = risk_label of the margin and final = adjust_risk(base, coverage class), computed on strings and equal to the typed pipeline. Final is never less risky than base, and HIGH for a missing margin. The uncertainty is confidence_multiplier of the class. |
| Dashboard.AssessRiskExamples | fyp-project/app.py:437-439 | No margin with High coverage gives HIGH/HIGH/0.05; a 20% margin with Low coverage gives LOW/MODERATE/0.25. |
| Dashboard.BandLower | fyp-project/app.py:627-630 | value - abs(value) u, with abs as Abs: never above the value for u >= 0, and the value itself for u = 0. |
| Dashboard.BandUpper | fyp-project/app.py:627-630 | value + abs(value) u: never below the value for u >= 0, and the value itself for u = 0. |
| Dashboard.GridBandBrackets | fyp-project/app.py:627-630 | For u >= 0, value - abs(value)u <= value <= value + abs(value)u whatever the sign. The band is symmetric and 2abs(value)u wide. |
| Dashboard.GridBandIsOrderedSignedBand | fyp-project/app.py:627-628 | The grid band equals compute_confidence_band's pair for profit >= 0, and the same pair swapped for a loss. |
| Dashboard.MarginBand | fyp-project/app.py:629-630 | A margin band exists iff the margin does, and it is margin -/+ abs(margin)u. |
| Dashboard.ScenarioFrame.constructor | fyp-project/scripts/scenario_runner.py:62 | The frame holds the grid rows and no band columns. |
| Dashboard.ScenarioFrame.AddConfidenceBands | fyp-project/app.py:627-630 | It adds the four columns, one entry per row, from the row's profit and margin; the rows are unchanged. For u >= 0 every band brackets its value. |

## Left out

- The Streamlit and Plotly presentation (layout, CSS, badges, charts, sliders, downloads) has no decision logic.
- File and console I/O is not modelled: CSV reading and writing, directory creation and printing in data_merge.py (`load_data`, `save_coverage_output`, `merge_hmrc_ons_totals`) and in classify_ons_coverage_by_commodity.py.
- `normalize_columns` in data_merge.py is a pure column rename, left out as data-frame plumbing.
- `compute_ons_coverage_by_sitc` and the coverage scripts ons_coverage_by_commodity.py, ons_coverage_by_country.py and ons_coverage_overall.py are pandas `groupby`/`agg`/`merge` aggregations. The SITC coverage table is an input of `CreateHs2CoverageFromSitc`, and its percentage (covered years / total years x 100, rounded) is taken as given.
- `prepare_ons_commodity` is not modelled as a whole, because it is further DataFrame plumbing. Its two parsers, `ExtractCountryCode` and `ExtractMainSitcSection`, are modelled.
- The archived scripts under scripts/achives/ and scripts/__init__.py are not part of this model.
- `round(x, 2)` in compute_margin and the rounding of the coverage percentage are not modelled, and neither are binary floating-point effects. All arithmetic is exact over `real`.
- NaN and None values inside present columns are not modelled. A missing value is `None` only where the source tests for it (`pd.isna`, `notna`, `.get` defaults) and in the margin, which compute_margin leaves as `None` for revenue <= 0 (scripts/margin_model.py:51-52).
- `Dashboard.GetCommodityInfo`: `Series.get` falls back to its default only when a column is absent. The model represents a present column by `Some` and does not model a NaN inside it.
- `DataMerge.IsUpper`, `DataMerge.IsSpace` and `DataMerge.IsDigit` cover ASCII only. Python's `str.isupper`, `str.strip` and the regex `\d` also accept non-ASCII letters, whitespace and digits.
- `DataMerge.Hs2Chapter` takes the result of `int(commodity_code)` as input (`None` when it raises). String parsing by `int()` is not modelled, so a code written with a leading zero arrives without it, as `Hs2ChapterExamples` shows.
- The HS2_DESCRIPTIONS table in app.py is a parameter of `GetCommodityInfo`, not its literal contents.
- The `partner_country` column rename in `prepare_hmrc` and the `sort_values` call in `create_hs2_coverage_from_sitc` are not modelled. The rows are already in ascending commodity order (`Hs2CoverageSorted`), so the sort changes nothing.
- `DataMerge.SitcOf`: HS2_TO_SITC is written as a range-grouped lookup rather than 97 literal entries, with the key order given by `Hs2Chapters`. `SitcOfTable` states its value at every chapter, grouped by the literal's runs.
- `ScenarioRunner.RunSensitivityScenarios`: a Python range over a non-integer `steps` (a TypeError) is not modelled, because `steps` is an `int`. The DataFrame wrapping of the rows is also not modelled.
- `Dashboard.ScenarioFrame.AddConfidenceBands`: the pandas column alignment is modelled as four sequence fields indexed like the rows.

## Edge behaviour

- With a zero import value every cost line is 0 and the profit is max(revenue, 0) (`ZeroImportValue`).
- `classify_coverage` puts a negative percentage in Low coverage, above 0% (`ClassifyCoverageNegativeNotMonotone`).
- An unrecognised coverage class leaves the risk tier unchanged in `adjust_risk` (`AdjustRisk`). Its 0.30 multiplier lies below No coverage's 0.40 (`FallbackIsPessimistic`).
- The dashboard turns a missing margin into 0.0 before `risk_label`, and the tier stays HIGH (`DisplayMarginKeepsTier`).
