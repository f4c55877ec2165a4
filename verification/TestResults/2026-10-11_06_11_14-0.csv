TestResult.DisplayName,TestResult.Outcome,TestResult.Duration,TestResult.ResourceCount,RandomSeed
JsString.TrimStartAppend (correctness),Passed,00:00:00.2822105,1208844,0
