/** Configuration values the core reads (WebSite/BackEnd/app/core/config.py),
    passed explicitly to every operation that needs them. */
module Settings {
  import opened Common

  datatype Config = Config(
    supportedLanguages: string,   // comma-separated language codes
    reviewThreshold: int,         // moderation_review_threshold
    rejectThreshold: int,         // moderation_reject_threshold
    aiDailyLimit: int,            // ai_daily_limit; 0 or less disables the limiter
    openaiModel: string,          // recorded on AI translations
    emailCodeExpireMinutes: nat,
    refreshTokenDays: nat,
    rootAccount: Option<string>,
    rootPassword: Option<string>)

  /** The defaults of the settings class. */
  const Default: Config := Config("en,zh,ko", 60, 85, 0, "gpt-4o-mini", 10, 14, None, None)
}
