/**
 * Company metadata and price history from the market-data provider
 * (get_stock_data). The provider's two answers are parameters: the metadata
 * as a key/value map and the daily history as rows, each `Err` when the
 * corresponding call raises.
 */
module StockData {
  import opened Wrappers

  /** One row of the daily history; only the date and the close are used. */
  datatype PriceRow = PriceRow(date: int, close: real)

  /** The metadata keys the dashboard keeps, in the order it reads them. */
  const InfoKeys: seq<string> := ["longName", "sector", "industry", "longBusinessSummary"]

  /** Python's dict.get(key, default). */
  function PyGet(m: map<string, string>, key: string, default: string): string {
    if key in m then m[key] else default
  }

  /**
   * get_stock_data: the projected metadata, the history, and whether the error
   * message is shown. On any provider error both results are empty.
   */
  method GetStockData(info: Result<map<string, string>, string>, history: Result<seq<PriceRow>, string>)
    returns (infoDict: map<string, string>, hist: seq<PriceRow>, failed: bool)
    ensures failed <==> info.Err? || history.Err?
    ensures failed ==> infoDict == map[] && hist == []
    ensures !failed ==> hist == history.value
    ensures !failed ==> infoDict.Keys == {"longName", "sector", "industry", "longBusinessSummary"}
    ensures !failed ==> forall key :: key in infoDict ==> infoDict[key] == PyGet(info.value, key, "")
    ensures infoDict == map[] <==> failed
  {
    if info.Err? {
      return map[], [], true;
    }
    infoDict := map[];
    var j := 0;
    while j < |InfoKeys|
      invariant 0 <= j <= |InfoKeys|
      invariant infoDict.Keys == set i | 0 <= i < j :: InfoKeys[i]
      invariant forall key :: key in infoDict ==> infoDict[key] == PyGet(info.value, key, "")
    {
      infoDict := infoDict[InfoKeys[j] := PyGet(info.value, InfoKeys[j], "")];
      j := j + 1;
    }
    assert InfoKeys[0] in infoDict && InfoKeys[1] in infoDict && InfoKeys[2] in infoDict && InfoKeys[3] in infoDict;
    assert infoDict.Keys <= {"longName", "sector", "industry", "longBusinessSummary"};
    if history.Err? {
      return map[], [], true;
    }
    hist, failed := history.value, false;
  }

  /**
   * The dashboard reads the projected metadata with defaults of its own
   * (the catalogue name, "No disponible"); every key it reads is always
   * present, so those defaults are never used.
   */
  lemma ProjectedDefaultsUnused(infoDict: map<string, string>, key: string, default: string)
    requires infoDict.Keys == {"longName", "sector", "industry", "longBusinessSummary"}
    requires key in InfoKeys
    ensures PyGet(infoDict, key, default) == infoDict[key]
  {
  }
}
