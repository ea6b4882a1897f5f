# Desafio Backend — a verified model of its three calculators

The program is a console menu with three independent exercises. This
project models the business logic inside each one and proves what it
promises:

- **Sales commission** (`Commission`): each sale earns 0% below 100.00,
  1% from 100.00 up to 500.00 and 5% from 500.00 on. The sales are
  grouped by seller (LINQ `GroupBy`), each group is summed (`Select` with
  two `Sum`s) and the report is sorted by seller name (`OrderBy`). The model
  proves four things about the report. It has one line per seller who made
  a sale. The lines are in strictly ascending order of name. Each line
  carries its seller's sum of amounts and sum of commissions. The report
  as a whole neither loses nor double-counts any amount or commission.
- **Stock movements** (`Inventory`): a list of stock records keyed by
  product code and an append-only movement log. A movement is refused for
  an unknown code, a non-positive quantity, an outbound larger than the
  stock, or an inbound that would take the stock past the 32-bit maximum
  (see Findings), and then nothing changes. An accepted movement appends one record
  and changes only its product's quantity, by +q or −q. The session is the
  class `StockLedger`, whose method `Record` updates both lists in place.
  Its invariant ties every quantity to the opening stock plus the net flow
  the log records for that product.
- **Late-payment interest** (`Interest`): a non-positive amount is refused.
  On or before the due date there is no interest. After it, the interest is
  amount × 2.5% × days late, simple and not compounded.

Decimal amounts are modelled as `real`, which is exact like C# `decimal`.
Dates are day numbers. The C# 32-bit `int` of the stock records is the
newtype `Inventory.Int32`. `Wrappers` holds `Option` and `Result`.
`StringOrder` holds the ordinal string order used for sorting, with its
order laws.

## Model

| member | source | states |
|---|---|---|
| `Commission.SaleCommission` | DesafioBackend/Program.cs:129-136 | the commission is never negative, is zero exactly when the amount is below 100, and never exceeds 5% of a non-negative amount |
| `Commission.CommissionByTier` | DesafioBackend/Program.cs:131-135 | below 100 the commission is 0, in [100, 500) it is amount/100, from 500 on it is 5·amount/100 |
| `Commission.CommissionMonotone` | DesafioBackend/Program.cs:129-136 | a larger sale never earns a smaller commission, also across the 100 and 500 tier boundaries |
| `Commission.SalesOf` | DesafioBackend/Program.cs:107 | a seller's group holds exactly the sales whose seller it is |
| `Commission.SalesOfCounts` | DesafioBackend/Program.cs:107 | a seller's group holds each of that seller's sales as many times as the input does, and no other sale |
| `Commission.GroupKeys` | DesafioBackend/Program.cs:106-107 | the group keys are exactly the sellers of the input, each once, so there are as many as there are distinct sellers |
| `Commission.Total` | DesafioBackend/Program.cs:111-112 | the `Sum` over a group: a sum of commissions is never negative |
| `Commission.Summarize` | DesafioBackend/Program.cs:108-113 | a group's line carries the group's seller, a non-negative total commission, and zero totals for a name that made no sale |
| `Commission.Summaries` | DesafioBackend/Program.cs:108-113 | one line per key in key order, each line the seller with its group's sum of amounts and sum of commissions |
| `Commission.Insert` | DesafioBackend/Program.cs:114 | inserting a line into the sorted lines adds exactly that line and keeps all the others |
| `Commission.SortBySeller` | DesafioBackend/Program.cs:114 | the sorted lines are a permutation of the input lines |
| `Commission.SortBySellerSameRows` | DesafioBackend/Program.cs:114 | sorting keeps the number of lines and exactly the same lines |
| `Commission.InsertAscending` | DesafioBackend/Program.cs:114 | inserting a line with a new seller into an ascending list keeps it strictly ascending |
| `Commission.SortAscending` | DesafioBackend/Program.cs:114 | sorting lines whose sellers differ pairwise gives a strictly ascending list |
| `StringOrder.Less` | DesafioBackend/Program.cs:114 | the name comparison `OrderBy` applies: a proper prefix sorts before the longer name and never after it |
| `StringOrder.LessTransitive` | DesafioBackend/Program.cs:114 | the name order used for sorting is transitive |
| `StringOrder.LessTotal` | DesafioBackend/Program.cs:114 | two different names are always ordered one way or the other |
| `StringOrder.LessIrreflexive` | DesafioBackend/Program.cs:114 | no name sorts before itself |
| `StringOrder.LessAsymmetric` | DesafioBackend/Program.cs:114 | the name order never holds both ways |
| `Commission.AggregateBySeller` | DesafioBackend/Program.cs:106-115 | the GroupBy/Select/OrderBy pipeline gives as many lines as there are sellers, each line the summary of one seller's group |
| `Commission.AggregateAscending` | DesafioBackend/Program.cs:106-115 | the report is in strictly ascending order of seller name |
| `Commission.AggregateOneLinePerSeller` | DesafioBackend/Program.cs:106-115 | the report names exactly the sellers of the input, one line each |
| `Commission.AggregateLineTotals` | DesafioBackend/Program.cs:110-112 | each line's total sold is the sum of that seller's amounts and its total commission the sum of the commission on each of those sales |
| `Commission.KeyTotalOfGroups` | DesafioBackend/Program.cs:106-112 | summing each group's total over all group keys gives the total over all sales |
| `Commission.AggregatePreservesTotals` | DesafioBackend/Program.cs:106-115 | the report's total sold equals the sum of all sales, and its total commission the sum of every sale's commission |
| `Commission.CommissionReport` | DesafioBackend/Program.cs:94-115 | an empty dataset is refused; otherwise the result is the non-empty aggregated report |
| `Commission.ExampleSellerSold` | DesafioBackend/Program.cs:144-153 | the ten sales of João Silva add up to 10754.70 |
| `Commission.ExampleSellerCommission` | DesafioBackend/Program.cs:144-153 | those ten sales earn 495.677 in commission (seven at 5%, three at 1%) |
| `Commission.SalesOfSingleSeller` | DesafioBackend/Program.cs:107 | when every sale is by one seller, that seller's group is the whole input, in order |
| `Commission.ExampleReport` | DesafioBackend/Program.cs:106-115 | the report over João Silva's ten sales of the embedded dataset is a single line: 10754.70 sold, 495.677 commission |
| `Inventory.FindProduct` | DesafioBackend/Program.cs:240 | the lookup finds the first record with the code, or reports that no record has it |
| `Inventory.FindProductSameCodes` | DesafioBackend/Program.cs:240 | the lookup depends only on the codes, so a change of quantities never redirects it |
| `Inventory.Wrap` | DesafioBackend/Program.cs:291-294 | the unchecked 32-bit result is congruent to the exact one modulo 2^32 |
| `Inventory.NewQuantityAsWritten` | DesafioBackend/Program.cs:291-294 | as written, an inbound that stays in the 32-bit range adds exactly, one that passes the 32-bit maximum leaves a negative stock, and an allowed outbound subtracts exactly |
| `Inventory.MoveAsWritten` | DesafioBackend/Program.cs:240-294 | as written: refused exactly for an unknown code, a non-positive quantity or an outbound above the stock; an accepted inbound past the 32-bit maximum leaves a negative stock |
| `Inventory.InboundOverflowAsWritten` | DesafioBackend/Program.cs:240-292 | as written, an inbound of 2147483647 on product 101 (150 in stock) passes every check and leaves −2147483499 |
| `Inventory.Move` | DesafioBackend/Program.cs:240-294 | each refusal happens exactly under its condition, checked in the source's order; an accepted movement appends one record carrying the code, quantity and direction, changes only the first record with that code, by +q or −q, and keeps all codes |
| `Inventory.MoveKeepsStockNonNegative` | DesafioBackend/Program.cs:271-294 | stock that starts non-negative stays non-negative after any accepted movement |
| `Inventory.InboundThenOutboundRestores` | DesafioBackend/Program.cs:281-294 | on non-negative stock, an inbound of q then an outbound of q both succeed and restore every record, and the log grows by those two |
| `Inventory.OutboundThenInboundRestores` | DesafioBackend/Program.cs:281-294 | an accepted outbound of q followed by an inbound of q succeeds and restores every record |
| `Inventory.MovePreservesBalance` | DesafioBackend/Program.cs:281-294 | after an accepted movement every quantity still equals its opening quantity plus the net flow the log records into it |
| `Inventory.MovePreservesInvariant` | DesafioBackend/Program.cs:281-294 | an accepted movement keeps the session invariant: the balance holds, ids are log positions, and every logged code names an existing product |
| `Inventory.StockLedger.constructor` | DesafioBackend/Program.cs:206-207 | a session opens on the given records with an empty log, satisfying its invariant |
| `Inventory.StockLedger.Open` | DesafioBackend/Program.cs:197-207 | an empty dataset is refused; otherwise a fresh valid session on those records with an empty log |
| `Inventory.StockLedger.Lookup` | DesafioBackend/Program.cs:240-246 | not found exactly when no record has the code; otherwise a record of the list with that code |
| `Inventory.StockLedger.Record` | DesafioBackend/Program.cs:232-294 | the fields change as `Move` says on acceptance and not at all on refusal; the invariant and non-negative stock are kept |
| `Interest.LateCharge` | DesafioBackend/Program.cs:349-378 | refused exactly when the amount is not positive; the final amount is principal plus interest; interest is never negative, and is zero and no days are late exactly when not overdue |
| `Interest.NotOverdueNoInterest` | DesafioBackend/Program.cs:364-372 | on or before the due date: 0 days, 0 interest, final amount = principal |
| `Interest.OverdueSimpleInterest` | DesafioBackend/Program.cs:374-378 | after the due date: days late = today − due, interest = principal × 0.025 × days, final = principal × (1 + days/40) |
| `Interest.EachDayAddsFlatRate` | DesafioBackend/Program.cs:375-378 | each further day late adds the same 2.5% of the original amount (simple interest) |
| `Interest.LaterNeverCheaper` | DesafioBackend/Program.cs:374-378 | the amount due never decreases as the evaluation day moves later |
| `Interest.WorkedExamples` | DesafioBackend/Program.cs:364-378 | 1000.00 due today costs 1000.00; ten days late it costs 1250.00 with 250.00 interest |

## Findings

| source | as written | input that shows it | evidently intended | confidence | as-written member | corrected member |
|---|---|---|---|---|---|---|
| DesafioBackend/Program.cs:291-292 | `produto.Estoque += quantidade` adds two 32-bit `int`s in C#'s default unchecked context, so the sum wraps around | product 101 holds 150; an inbound (E) of 2147483647 passes the checks at lines 264 and 271 and leaves the stock at −2147483499 | stock never becomes negative; an inbound that does not fit is refused like any other invalid movement | medium (assumes the project does not enable checked arithmetic), not executed | `Inventory.InboundOverflowAsWritten` | `Inventory.Move` |

## Left out

- Console I/O is not modelled: the main menu, the challenge-2 menu loop, prompts, `Console.Clear`, `Pausar` and all output formatting (`N2`, pt-BR culture).
- JSON deserialisation of the embedded datasets is not modelled. The datasets are given sequences of records. Only the ten sales of one seller appear as a constant, for the worked example.
- Input parsing is not modelled: `int.TryParse`, `decimal.TryParse`, `DateTime.TryParseExact` with `dd/MM/yyyy`, and the trimmed, upper-cased E/S letter. The model starts from parsed values. So the "invalid code", "invalid type" and "invalid date" branches, and a quantity or amount that fails to parse, do not appear.
- The movement identifier from `Guid.NewGuid()` becomes the movement's position in the log, which is unique by construction.
- The movement timestamp from `DateTime.Now` is omitted.
- `DateTime.Today` becomes the parameter `today`.
- The description read from the console is a parameter.
- `OrderBy` compares seller names with the culture's comparer. The model uses ordinal lexicographic order on characters.
- C# `decimal` has a limited range and 28–29 significant digits, and overflows with an exception. The model uses exact `real` arithmetic, and the 32-bit `diasAtraso` is unbounded.
- Inventory.Move: it refuses, with `StockOverflow`, an inbound that would take the stock past 2147483647. As written, the source wraps around instead (see Findings). `StockLedger.Record` follows the corrected rule.
- Inventory.StockLedger.Record: like `Move`, it refuses with `StockOverflow` an inbound that would take the stock past 2147483647, where the source wraps around.
- The model follows the code. Product codes are not required to be unique: a movement acts on the first record with its code. Opening stock is not checked to be non-negative, so non-negativity is proved to be preserved, not assumed.
