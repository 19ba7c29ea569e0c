/** The logger registry: one application logger, created on first use, and
    one child logger per subsystem, created on the first request for that
    subsystem and handed out on every later one. */
module Logging {

  /** The application logger; `level` comes from the configuration. */
  class AppLogger {
    const level: string

    constructor (level: string)
      ensures this.level == level
    {
      this.level := level;
    }
  }

  /** A child of the application logger tagged with its subsystem. */
  class ChildLogger {
    const parent: AppLogger
    const subsystem: string

    constructor (parent: AppLogger, subsystem: string)
      ensures this.parent == parent && this.subsystem == subsystem
    {
      this.parent := parent;
      this.subsystem := subsystem;
    }
  }

  /** The module state: `globalLogger` (null while still undefined) and the
      `loggers` table. */
  class LoggerRegistry {
    const level: string
    var globalLogger: AppLogger?
    var loggers: map<string, ChildLogger>

    /** The application logger has the configured level, and every stored
        child logger is keyed by its own subsystem and is a child of it. */
    ghost predicate Valid()
      reads this, loggers.Values
    {
      && (loggers != map[] ==> globalLogger != null)
      && (globalLogger != null ==> globalLogger.level == level)
      && forall s | s in loggers :: loggers[s].subsystem == s && loggers[s].parent == globalLogger
    }

    /** Module load: nothing created yet. */
    constructor (level: string)
      ensures Valid()
      ensures this.level == level && globalLogger == null && loggers == map[]
    {
      this.level := level;
      globalLogger := null;
      loggers := map[];
    }

    /** `logger(subsystem)`. */
    method Logger(subsystem: string) returns (r: ChildLogger)
      requires Valid()
      modifies this
      ensures Valid()
      ensures globalLogger != null && globalLogger.level == level
      ensures old(globalLogger) != null ==> globalLogger == old(globalLogger)
      ensures old(globalLogger) == null ==> fresh(globalLogger)
      ensures subsystem in old(loggers) ==> r == old(loggers)[subsystem] && loggers == old(loggers)
      ensures subsystem !in old(loggers) ==> fresh(r) && loggers == old(loggers)[subsystem := r]
      ensures r.subsystem == subsystem && r.parent == globalLogger
      ensures forall s | s in old(loggers) :: s in loggers && loggers[s] == old(loggers)[s]
    {
      if globalLogger == null {
        globalLogger := new AppLogger(level);
      }
      if subsystem !in loggers {
        var child := new ChildLogger(globalLogger, subsystem);
        loggers := loggers[subsystem := child];
      }
      r := loggers[subsystem];
    }
  }
}
