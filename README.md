# Inventory restocking with Local and Global suppliers

A Dafny model of a small inventory program. An organization keeps a catalog of
products, each with a stock level and a reorder threshold. Suppliers subscribe
to the organization. A Local supplier is then assigned every "Electronics"
product of the catalog and a Global supplier every other product. The
assignment is a snapshot taken at subscription time.

A supplier sells a quantity of a product assigned to it. The sale lowers the
stock. If the product is then at or below its threshold, that supplier alone
is asked to restock it. A sweep of the whole catalog asks every subscriber to
restock every product at or below its threshold. The quantity asked for brings
the stock back to twice the threshold.

The model has two layers:

- Value-level specification modules:
  - `RestockPolicy`: the restock test, the restock quantity and the stock left by a sale.
  - `Catalog`: lookup by ID (first match) and removal of every product with an ID.
  - `SupplierAssignment`: which IDs a Local or Global supplier takes from a catalog.
  - `NotificationRouter`: the notices of the sweep and of the targeted notification.
  - `SaleRule`: the sale decision as a function of the catalog and the supplier's assignment.
- `Inventory`: the program's classes (`Product`, `Supplier`, `Organization`).
  Their methods change fields in place with loops as the source does. Each one
  is proved against the specification functions.

`Scenarios` checks the start-up laptop on its own against both layers and the
full five-product start-up catalog against the value-level functions.

A supplier's `notifyRestock` is modelled as one more entry
`RestockNotice(supplier, productID, quantity)` in the organization's delivery
log `sent`. So "who was told what, in which order" is part of the state.

Three behaviours of the code shape the model:

- `addProduct` does not check that a product ID is new (main.cpp:95-98). Lookup returns the first product with an ID and removal drops every one.
- The sale step rejects a non-positive quantity and a quantity above the stock with one message (main.cpp:397, 414), modelled as the single outcome `InvalidQuantity`.
- `updateStockLevel` clamps an oversell to 0 stock (main.cpp:56-59), and the model keeps the clamp, though the sale step never reaches it.

## Model

| member | source | states |
|---|---|---|
| RestockPolicy.ProductInfo.NeedsRestocking | main.cpp:66-69 | a product needs restocking exactly when the quantity it would be asked for is at least its threshold |
| RestockPolicy.StillLowAfterSale | main.cpp:54-69 | a sale (positive or zero, from non-negative stock) never lifts a product out of needing restocking |
| RestockPolicy.ProductInfo.RestockQuantity | main.cpp:182 | the quantity asked for brings the stock back to exactly twice the threshold; it is at least the threshold for a product that needs restocking (non-negative threshold); it is positive exactly when the stock is under twice the threshold |
| RestockPolicy.StockAfterSale | main.cpp:54-64 | a sale within the stock lowers it by exactly the quantity; an oversell leaves 0; from non-negative stock and quantity the result stays between 0 and the old stock |
| RestockPolicy.AdmittedSaleDoesNotClamp | main.cpp:397-401 | for a quantity the sale step admits (0 < q <= stock), the clamp never fires and the stock drops to stock - q, strictly lower |
| Catalog.FirstIndexOf | main.cpp:108-114 | the lookup returns a position holding the ID with no earlier match, and returns None exactly when no product carries the ID |
| Catalog.FirstIndexOfIsFirstMatch | main.cpp:110-113 | any position that is the first match is the one the lookup returns |
| Catalog.FirstIndexOfCons | main.cpp:110-113 | past a non-matching first product, the lookup is the lookup in the rest shifted by one |
| Catalog.FindAfterAppend | main.cpp:95-98 | after appending, an ID already present is still found at its old position; a new ID is found at the end, or not at all |
| Catalog.RemoveAll | main.cpp:100-106 | removal never lengthens the catalog |
| Catalog.RemoveAllMembership | main.cpp:100-106 | a product survives removal exactly when it was in the catalog and carries another ID |
| Catalog.RemoveAllCons | main.cpp:102-105 | removal decides the first product alone, then filters the rest |
| Catalog.RemoveAllAppend | main.cpp:102-105 | removal distributes over concatenation, so survivors keep their catalog order |
| Catalog.RemoveAllAbsent | main.cpp:100-106 | removing an ID no product carries leaves the catalog unchanged |
| Catalog.RemoveAllKeepsOthers | main.cpp:100-106 | every product with another ID survives as many times as it occurred |
| Catalog.RemoveThenFind | main.cpp:100-114 | after removing an ID, looking it up finds nothing |
| Catalog.FindOtherAfterRemove | main.cpp:100-114 | removing one ID leaves a lookup of any other ID finding the same product, or still nothing |
| SupplierAssignment.Covers | main.cpp:246 | the category test: Local covers a category exactly when it is "Electronics", Global exactly when it is not (main.cpp:278) |
| SupplierAssignment.AssignedIDs | main.cpp:238-251 | a supplier is assigned no more IDs than the catalog has products |
| SupplierAssignment.AssignedIDsMembership | main.cpp:244-250 | an ID is assigned exactly when some product of the snapshot carries it and passes the variant's category test |
| SupplierAssignment.AssignedIDsAppend | main.cpp:243-250 | assignment goes product by product: the assignment from a longer catalog is the old one followed by that of the new products |
| SupplierAssignment.AssignedIDsSnoc | main.cpp:244-250 | one more product adds its ID at the end exactly when the variant covers its category |
| SupplierAssignment.LocalAndGlobalSplitCatalog | main.cpp:276-282 | the Local test (`== "Electronics"`) and the Global test (`!=`) split the catalog: together they assign exactly one ID per product |
| NotificationRouter.Broadcast | main.cpp:188-191 | one notice per subscriber, in subscription order, each naming that subscriber, the product and the quantity |
| NotificationRouter.AnyLow | main.cpp:176-181 | the sweep's flag, raised product by product in catalog order; its meaning is stated by `AnyLowMeans` |
| NotificationRouter.AnyLowMeans | main.cpp:176-181 | the flag ends up raised exactly when some product of the catalog needs restocking |
| NotificationRouter.AnyLowAppend | main.cpp:176-181 | the sweep's flag over a longer catalog is set exactly when it was already set or the new product needs restocking |
| NotificationRouter.TargetedNotices | main.cpp:202-219 | the targeted notification sends nothing exactly when the product does not need restocking; otherwise one notice, to that supplier, for that product, bringing the stock to twice the threshold |
| NotificationRouter.SweepNotices | main.cpp:174-200 | with nobody subscribed the sweep sends nothing; its count, soundness, completeness and emptiness are the `SweepNotices*` lemmas |
| NotificationRouter.SweepStep | main.cpp:177-192 | one step of the sweep's loop: product i raises the flag and adds its broadcast exactly when it needs restocking |
| NotificationRouter.SweepNoticesAppend | main.cpp:177-193 | the sweep handles products in catalog order: its notices over a concatenation are the notices of each part, in order |
| NotificationRouter.SweepNoticesLength | main.cpp:174-200 | the sweep sends exactly (number of products needing restocking) × (number of subscribers) notices |
| NotificationRouter.SweepNoticesSound | main.cpp:174-200 | every notice of the sweep goes to a subscriber and names a product needing restocking with that product's restock quantity |
| NotificationRouter.SweepNoticesComplete | main.cpp:174-200 | every subscriber is told about every product needing restocking, with its restock quantity |
| NotificationRouter.SweepNoticesEmpty | main.cpp:174-200 | the sweep sends nothing exactly when no product needs restocking or nobody is subscribed |
| NotificationRouter.TargetedAgreesWithSweep | main.cpp:202-219 | a targeted notice to a subscriber is one of the notices the sweep would send, with the same quantity; there is none for a product the sweep passes over |
| SaleRule.SaleEffect | main.cpp:382-416 | the sale is "not found" exactly when no product carries the ID; "not assigned" only when the supplier lacks the ID; "invalid quantity" only for an assigned ID with a non-positive quantity or one above a matching product's stock; the catalog keeps its length and at most one notice is sent |
| SaleRule.SaleAcceptedIff | main.cpp:382-416 | a sale goes through exactly when the supplier is assigned the ID, a product carries it, and the quantity is positive and at most the stock of the first such product |
| SaleRule.SaleRejectedChangesNothing | main.cpp:382-420 | every rejected sale leaves the catalog unchanged and notifies nobody |
| SaleRule.SaleAcceptedLowersStock | main.cpp:397-405 | an accepted sale lowers the first matching product's stock by exactly the quantity, keeps it non-negative, and changes no other field and no other product |
| SaleRule.SaleNotifiesSeller | main.cpp:407-410 | a sale notifies exactly when it was accepted and the product now needs restocking; the one notice goes to the seller and asks for 2 × threshold − new stock |
| SaleRule.SaleKeepsStockNonNegative | main.cpp:397-401 | sales preserve "no stock level is negative" over the whole catalog |
| Inventory.Product.constructor | main.cpp:42-45 | the new product has the given ID, name, category, stock and threshold |
| Inventory.Product.NeedsRestocking | main.cpp:66-69 | true exactly when the stock is at or below the threshold |
| Inventory.Product.UpdateStockLevel | main.cpp:54-64 | the new stock level is the clamped `StockAfterSale` of the old one |
| Inventory.Product.SetStockLevel | main.cpp:71-74 | the stock level becomes the given value, unchecked |
| Inventory.KeepOthers | main.cpp:102-104 | what `remove_if` keeps is no longer than the catalog and carries only other IDs |
| Inventory.KeepOthersIsRemoveAll | main.cpp:102-105 | the product objects `remove_if` keeps are distinct, come from the catalog, and their states are `RemoveAll` of the old catalog |
| Inventory.Supplier.constructor | main.cpp:20 | a new supplier has its name and variant and no assigned products |
| Inventory.Supplier.AssignProduct | main.cpp:25 | the ID is appended to the supplier's list, duplicates included |
| Inventory.Supplier.SubscribeToOrganization | main.cpp:238-251 | the supplier is appended to the subscription list and its list grows by `AssignedIDs` of the current catalog; catalog and log are unchanged |
| Inventory.Organization.constructor | main.cpp:88-92 | a new organization has an empty catalog, no subscribers and an empty log |
| Inventory.Organization.AddProduct | main.cpp:95-98 | the catalog becomes the old catalog followed by a copy of the product; no supplier's assignment changes |
| Inventory.Organization.RemoveProduct | main.cpp:100-106 | the catalog becomes `RemoveAll` of the old catalog; no new product objects; subscribers and log unchanged |
| Inventory.Organization.RemoveIf | main.cpp:102-104 | the loop keeps the products with another ID, in order |
| Inventory.Organization.FindProductByID | main.cpp:108-114 | null exactly when no product carries the ID; otherwise the product at the first matching position |
| Inventory.Organization.SubscribeSupplier | main.cpp:169-172 | the supplier is appended to the subscription list, a second time too if it subscribes twice |
| Inventory.Organization.NotifyRestock | main.cpp:230-236 | one notice naming the supplier, product and quantity is appended to the log |
| Inventory.Organization.CheckInventoryAndNotify | main.cpp:174-200 | the log grows by exactly `SweepNotices` of the catalog; the result is false, when "all well-stocked" is reported, exactly when no product needs restocking; the catalog is unchanged |
| Inventory.Organization.CheckProduct | main.cpp:179-192 | one product's step of the sweep: the result is its restock test, and the log grows by the broadcast of its restock quantity exactly when it needs restocking; the catalog is unchanged |
| Inventory.Organization.NotifyAll | main.cpp:188-191 | the log grows by `Broadcast` to the subscribers |
| Inventory.Organization.SendTargetedNotification | main.cpp:202-219 | the log grows by exactly `TargetedNotices` of the product and supplier |
| Inventory.Organization.Sell | main.cpp:382-416 | outcome, new catalog and the notices sent equal `SaleEffect` of the old catalog and the supplier's assignment; earlier log entries are kept; the seller's and every subscriber's assignment list is unchanged, so sales can be chained |
| Inventory.Organization.RecordSale | main.cpp:399-410 | the product's stock becomes the clamped sale result, only its catalog entry changes, and the log grows by the targeted notices |
| Scenarios.SeedAssignment | main.cpp:317-335 | with the start-up catalog, the Local supplier is assigned 101, 102, 103 and the Global one 104, 105 |
| Scenarios.SeedWellStocked | main.cpp:317-329 | at start-up no product needs restocking, so a sweep sends nothing |
| Scenarios.LaptopOrganization | main.cpp:317-335 | with the laptop alone, subscribing Local then Global gives them [101] and [] |
| Scenarios.WellStockedSweep | main.cpp:195-199 | a sweep over the well-stocked laptop reports no restocking and sends nothing |
| Scenarios.LaptopSale | main.cpp:397-410 | the Local supplier selling 6 of 10 laptops leaves 4 and sends one notice, to the Local supplier, asking for 6 |
| Scenarios.UnassignedSale | main.cpp:385-392 | the Global supplier's laptop sale is refused and sends nothing |
| Scenarios.InvalidQuantitySales | main.cpp:397-415 | selling 11 of 10 laptops, or 0, is refused |
| Scenarios.UnknownProductSale | main.cpp:382-420 | selling an ID no product carries is reported as not found |
| Scenarios.SweepAfterSale | main.cpp:174-200 | after the sale, a sweep tells both subscribers, one each, to restock 6 laptops |
| Scenarios.LateProductNotAssigned | main.cpp:243-250 | a product added after subscription is in the catalog but not in the supplier's list |

## Left out

- Console I/O is not modelled: the menus, `cin`, `system("clear")`, the `goto` back to the supplier menu, the printed alerts, and `displayProductDetails` / `displayProductsForSupplier`. The sale step takes the product ID, quantity and supplier as parameters.
- The price is a `double` that no rule reads, so it is dropped, together with the getters.
- `subscribedOrg` is set by `subscribeToOrganization` but never read, so it is not kept.
- The two supplier subclasses and their virtual `notifyRestock` are a `Local`/`Global` tag on one `Supplier` class. The different printed texts of the two `notifyRestock` overrides are not modelled; the log entry names the supplier, whose tag tells them apart.
- Integers are unbounded. The 32-bit overflow of `reorderThreshold * 2 - stockLevel` and of the stock arithmetic is not modelled.
- A null `currentSupplier` is not modelled. An invalid first menu choice leaves it null and the product menu then dereferences it; `Sell` takes a non-null supplier.
- Pointer lifetime is not modelled. A `Product*` from `findProductByID` is invalidated by a later `addProduct` or `removeProduct` on the vector; model products are objects that stay valid.
- Inventory.Organization.RemoveProduct: states that the kept product objects come from the old catalog. It does not state that they are the same C++ elements moved in place, since `erase` moves the survivors.
- Scenarios: the heap-level runs use the start-up laptop alone. The five-product seed is checked only on the value-level functions (`SeedAssignment`, `SeedWellStocked`), to keep the proofs small.
