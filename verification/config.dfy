/** The dashboard's configuration constants (app/config.py), as data. */
module Config {

  /** Maximum age, in seconds, of the in-process and per-session copies. */
  const CACHE_TTL: int := 86400

  /** An entry of the dashboard registry (the display icon is not modelled). */
  datatype Dashboard = Dashboard(id: string, name: string, enabled: bool)

  const DASHBOARDS: seq<Dashboard> := [
    Dashboard("icarus_historical", "ICARUS - Plan (Historical)", true),
    Dashboard("icarus_multi", "ICARUS - Multi", false),
    Dashboard("vol_val_plan", "Vol/Val Plan Level", false),
    Dashboard("pd_metrics", "PD Metrics_Merged", false),
    Dashboard("dt_metrics", "DT Metrics_Merged", false),
    Dashboard("icarus_cohort", "ICARUS - Cohort", false),
    Dashboard("jf_metrics", "JF_Metrics_Merged", false),
    Dashboard("cwc", "CWC", false),
    Dashboard("vol_val_entity", "Vol/Val Entity Level", false),
    Dashboard("ct_metrics", "CT Metrics_Merged", false)
  ]

  /** The plan whose checkbox is ticked after a filter reset. */
  const DEFAULT_PLAN: string := "JF2788ST"

  /** How a metric is shown: display name, number format and label suffix. */
  datatype MetricInfo = MetricInfo(display: string, format: string, suffix: string)

  /** The keys of the metrics configuration, in the configuration's order. */
  const METRIC_KEYS: seq<string> := [
    "Subscriptions", "Rebills", "Churn_Rate", "Refund_Rate",
    "Gross_ARPU_Retention_Rate", "Net_ARPU_Retention_Rate", "Cohort_CAC",
    "Recent_CAC", "Gross_ARPU_Discounted", "Net_ARPU_Discounted",
    "Net_LTV_Discounted", "BC4_CAC_Ceiling"
  ]

  const METRICS_CONFIG: map<string, MetricInfo> := map[
    "Subscriptions" := MetricInfo("Subscriptions", "number", ""),
    "Rebills" := MetricInfo("Rebills", "number", ""),
    "Churn_Rate" := MetricInfo("Churn Rate", "percent", " (%)"),
    "Refund_Rate" := MetricInfo("Refund Rate", "percent", " (%)"),
    "Gross_ARPU_Retention_Rate" := MetricInfo("Gross ARPU Retention", "percent", " (%)"),
    "Net_ARPU_Retention_Rate" := MetricInfo("Net ARPU Retention", "percent", " (%)"),
    "Cohort_CAC" := MetricInfo("Cohort CAC", "dollar", " ($)"),
    "Recent_CAC" := MetricInfo("Recent CAC", "dollar", " ($)"),
    "Gross_ARPU_Discounted" := MetricInfo("Gross ARPU", "dollar", " ($)"),
    "Net_ARPU_Discounted" := MetricInfo("Net ARPU", "dollar", " ($)"),
    "Net_LTV_Discounted" := MetricInfo("Net LTV", "dollar", " ($)"),
    "BC4_CAC_Ceiling" := MetricInfo("BC4 CAC Ceiling", "dollar", " ($)")
  ]

  /** Base colour of each app's chart series. */
  const APP_COLORS: map<string, string> := map[
    "AT" := "#F97316",
    "CL" := "#3B82F6",
    "CN" := "#22C55E",
    "CT-Non-JP" := "#14B8A6",
    "CT-JP" := "#EC4899",
    "CV" := "#A855F7",
    "DT" := "#F59E0B",
    "EN" := "#84CC16",
    "FS" := "#EF4444",
    "IQ" := "#6366F1",
    "JF" := "#10B981",
    "PD" := "#F43F5E",
    "RL" := "#0EA5E9",
    "RT" := "#8B5CF6"
  ]
}
