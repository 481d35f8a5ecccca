/** How the comparison code of Data_class.py meets the `Log` objects it
    compares: a `DataClass.LogView` read off a `LogClass.Log`. */
module LogViews {
  import LogClass
  import Formatting
  import DataClass

  /** A view read off a `Log` object whose general data is formatted: its
      keys are `return_keys()`, its identifier `return_identifier()` and
      its attributes `return_attributes()`. */
  predicate ViewOf(v: DataClass.LogView, log: LogClass.Log)
    reads log
  {
    && v.keys == LogClass.SeriesKeys(log.timeData, log.timeData.keys)
    && v.attributes == log.generalData
    && Formatting.Formatted(log.generalData)
    && v.identifier == Formatting.Identifier(log.generalData)
  }

  /** On a view of a log, every key offered has a y-label: the keys
      `format_data_old` stores are unit tags, on which `YLabel` cannot
      raise. */
  lemma ViewKeysLabelled(v: DataClass.LogView, log: LogClass.Log, k: string)
    requires ViewOf(v, log) && log.Tagged() && k in v.keys
    ensures DataClass.YLabel(k).Ok?
  {
    LogClass.SeriesKeysTagged(log.timeData, log.timeData.keys);
    var c, u :| u in Formatting.Units && k == Formatting.Tag(c, u);
    DataClass.YLabelOfTag(c, u);
  }
}
