/** The status a campaign contact is stored with, in packages/domain/src/uaagro_domain/enums.py. */
module ContactStatuses {
  datatype ContactStatus =
    | Pending | ScrubbedOut | Dialing | Completed | NoAnswer | Busy | Failed | OptedOut | MaxAttempts
    | ExcludedConsent | ExcludedWindow
}
