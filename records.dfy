/**
 * A spreadsheet row as the core sees it: a Python dict from column labels to
 * dynamically typed values, shared by every stage and updated in place.
 */
module Records {
  import opened Wrappers

  /** The values a row dict holds: None, a string, or a number (int or float). */
  datatype Value = VNone | VText(text: string) | VNum(num: real)

  /** Python truthiness of a value. */
  predicate Truthy(v: Value) {
    match v
    case VNone => false
    case VText(s) => s != ""
    case VNum(n) => n != 0.0
  }

  /** A nullable string column as a value. */
  function OptText(o: Option<string>): Value {
    match o
    case None => VNone
    case Some(s) => VText(s)
  }

  type Cells = map<string, Value>

  /** `item.get(key)`: a missing key reads as None. */
  function Get(c: Cells, key: string): Value {
    if key in c then c[key] else VNone
  }

  // Column labels of the input sheet (the aliases of InputData).
  const CustomerKey := "ЗАКАЗЧИК"
  const PartNumberKey := "P/N"
  const VendorKey := "ВЕНДОР"
  const AmountKey := "КОЛИЧЕСТВО"
  const DescriptionKey := "ОПИСАНИЕ"

  // Labels the stages write.
  const ModelPnKey := "MODEL/PN"
  const ZipKey := "ЗИП"
  const MatchTypeKey := "match_type"
  const WhereFoundKey := "ГДЕ НАШЛИ"
  const AppointmentKey := "НАЗНАЧЕНИЕ"
  const WarehouseKey := "СКЛАД"
  const PurchaseCostKey := "$, СТОИМОСТЬ ЗАКУПКИ ЗИП"
  const EngineersKey := "ДТК СЕРВИС (КОММЕНТАРИИ ИНЖЕНЕРОВ)"
  const ArchiveEngineersKey := "ДТК Сервис (КОММЕНТАРИИ ИНЖЕНЕРОВ)"
  const RequestKey := "№ ЗАПРОСА"
  const ArchiveQtyKey := "QTY ИЗ АРХИВОВ"
  const ChassisKey := "ШАССИ"
  const CategoryKey := "КАТЕГОРИЯ"
  const RepairKey := "РЕМОНТ"
  const LaborKey := "ТРУДОЗАТРАТЫ"
  const UnitRepairKey := "РЕМОНТЫ ЗА 1ЕД/РУБ"
  const UnitLaborKey := "ТРУДОЗАТРАТЫ ЗА 1ЕД/HOURS"

  /** One row dict; every stage of the pipeline updates the same object. */
  class Row {
    var cells: Cells

    constructor (cells: Cells)
      ensures this.cells == cells
    {
      this.cells := cells;
    }

    /** `item[key] = v`: one key is set, every other key is kept. */
    method Set(key: string, v: Value)
      modifies this
      ensures cells == old(cells)[key := v]
    {
      cells := cells[key := v];
    }

    /** `item.update(other)`: keys of `other` win, every other key is kept. */
    method Update(other: Cells)
      modifies this
      ensures cells == old(cells) + other
    {
      cells := cells + other;
    }
  }
}
